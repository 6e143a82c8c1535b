/** Folding of concatenation and slice operators
    (src/yosysConcatAndSplitAggregation.js): a CONCAT whose output feeds
    only another CONCAT is merged into it, and the SLICE operators that read
    one net are merged into the first of them. */
module ConcatSplit {
  import opened Outcomes
  import opened Graph
  import opened ObjectIdChecks
  import YosysUtils

  // ---------------------------------------------------------------------
  // The port-to-edge dictionary

  /** The edge has the port among its sources or its targets. */
  predicate Touches(e: Edge, portId: nat)
  {
    portId in PortIdsOf(e.sources) || portId in PortIdsOf(e.targets)
  }

  /** The last edge of the list that touches the port. */
  function LastEdgeOf(edges: seq<Edge>, portId: nat): (r: Option<Edge>)
    ensures r.None? <==> forall k | 0 <= k < |edges| :: !Touches(edges[k], portId)
    ensures r.Some? ==> exists k | 0 <= k < |edges| ::
                          && edges[k] == r.value && Touches(edges[k], portId)
                          && (forall j | k < j < |edges| :: !Touches(edges[j], portId))
  {
    if edges == [] then None
    else if Touches(edges[|edges| - 1], portId) then Some(edges[|edges| - 1])
    else
      var r := LastEdgeOf(edges[..|edges| - 1], portId);
      LastEdgeStep(edges, portId, r);
      r
  }

  /** An edge list whose last edge misses the port has the same last
      touching edge as its prefix. */
  lemma LastEdgeStep(edges: seq<Edge>, portId: nat, r: Option<Edge>)
    requires edges != [] && !Touches(edges[|edges| - 1], portId)
    requires var init := edges[..|edges| - 1];
      && (r.None? <==> forall k | 0 <= k < |init| :: !Touches(init[k], portId))
      && (r.Some? ==> exists k | 0 <= k < |init| ::
                        && init[k] == r.value && Touches(init[k], portId)
                        && (forall j | k < j < |init| :: !Touches(init[j], portId)))
    ensures r.None? <==> forall k | 0 <= k < |edges| :: !Touches(edges[k], portId)
    ensures r.Some? ==> exists k | 0 <= k < |edges| ::
                          && edges[k] == r.value && Touches(edges[k], portId)
                          && (forall j | k < j < |edges| :: !Touches(edges[j], portId))
  {
    var init := edges[..|edges| - 1];
    assert forall k | 0 <= k < |init| :: init[k] == edges[k];
    if r.Some? {
      var k :| 0 <= k < |init| && init[k] == r.value && Touches(init[k], portId)
               && (forall j | k < j < |init| :: !Touches(init[j], portId));
      assert edges[k] == r.value && Touches(edges[k], portId);
      assert forall j | k < j < |edges| :: !Touches(edges[j], portId);
    }
  }

  /** Every port of the endpoints is mapped to `e`; other keys keep their
      entries. */
  method RegisterEndpoints(dict: map<nat, Edge>, eps: seq<Endpoint>, e: Edge) returns (r: map<nat, Edge>)
    ensures forall id :: id in r <==> id in dict || id in PortIdsOf(eps)
    ensures forall id | id in r :: r[id] == if id in PortIdsOf(eps) then e else dict[id]
  {
    r := dict;
    for j := 0 to |eps|
      invariant forall id :: id in r <==> id in dict || id in PortIdsOf(eps[..j])
      invariant forall id | id in r :: r[id] == if id in PortIdsOf(eps[..j]) then e else dict[id]
    {
      assert PortIdsOf(eps[..j + 1]) == PortIdsOf(eps[..j]) + [eps[j].portId];
      r := r[eps[j].portId := e];
    }
    assert eps[..|eps|] == eps;
  }

  /** `getPortToEdgeDict`: every port an edge touches is mapped to the last
      edge of the list that touches it, and no other port is mapped. */
  method GetPortToEdgeDict(edges: seq<Edge>) returns (r: map<nat, Edge>)
    ensures forall id :: id in r <==> LastEdgeOf(edges, id).Some?
    ensures forall id | id in r :: r[id] == LastEdgeOf(edges, id).value
  {
    r := map[];
    for i := 0 to |edges|
      invariant forall id :: id in r <==> LastEdgeOf(edges[..i], id).Some?
      invariant forall id | id in r :: r[id] == LastEdgeOf(edges[..i], id).value
    {
      r := RegisterEndpoints(r, edges[i].sources, edges[i]);
      r := RegisterEndpoints(r, edges[i].targets, edges[i]);
      assert edges[..i + 1][..i] == edges[..i];
    }
    assert edges[..|edges|] == edges;
  }

  // ---------------------------------------------------------------------
  // Operator kinds and small list helpers

  predicate IsConcat(n: Node)
  {
    n.cls == "Operator" && n.name == "CONCAT"
  }

  predicate IsSlice(n: Node)
  {
    n.cls == "Operator" && n.name == "SLICE"
  }

  /** The ids of a list of nodes, in order. */
  function ChildIds(ns: seq<Node>): (r: seq<nat>)
    ensures |r| == |ns| && forall k | 0 <= k < |ns| :: r[k] == ns[k].id
  {
    seq(|ns|, k requires 0 <= k < |ns| => ns[k].id)
  }

  /** `array.filter((x) => !drop.has(x.id))` on a list of ids. */
  function Without(ids: seq<nat>, drop: set<nat>): (r: seq<nat>)
    ensures forall x :: x in r <==> x in ids && x !in drop
    ensures |r| <= |ids|
  {
    if ids == [] then []
    else (if ids[0] in drop then [] else [ids[0]]) + Without(ids[1..], drop)
  }

  lemma WithoutNothing(ids: seq<nat>)
    ensures Without(ids, {}) == ids
  {
  }

  /** Filtering keeps a list inside any set that held it. */
  lemma WithoutInside<V>(ids: seq<nat>, drop: set<nat>, m: map<nat, V>)
    requires forall k | 0 <= k < |ids| :: ids[k] in m
    ensures forall k | 0 <= k < |Without(ids, drop)| :: Without(ids, drop)[k] in m
  {
    forall k | 0 <= k < |Without(ids, drop)| ensures Without(ids, drop)[k] in m {
      assert Without(ids, drop)[k] in Without(ids, drop);
    }
  }

  /** `fillConcats`: the CONCAT operators among the children, in order. */
  function ConcatIds(children: seq<Node>): (r: seq<nat>)
  {
    if children == [] then []
    else (if IsConcat(children[0]) then [children[0].id] else []) + ConcatIds(children[1..])
  }

  /** Exactly the CONCAT children are selected. */
  lemma {:induction false} ConcatIdsSelect(children: seq<Node>)
    ensures forall x :: x in ConcatIds(children) <==> exists k | 0 <= k < |children| :: children[k].id == x && IsConcat(children[k])
  {
    if children != [] {
      ConcatIdsSelect(children[1..]);
      forall x | (exists k | 0 <= k < |children| :: children[k].id == x && IsConcat(children[k]))
        ensures x in ConcatIds(children)
      {
        var k :| 0 <= k < |children| && children[k].id == x && IsConcat(children[k]);
        if k > 0 { assert children[1..][k - 1] == children[k]; }
      }
    }
  }

  method FillConcats(children: seq<Node>) returns (r: seq<nat>)
    ensures r == ConcatIds(children)
  {
    r := [];
    for i := 0 to |children|
      invariant r + ConcatIds(children[i..]) == ConcatIds(children)
    {
      assert children[i..][1..] == children[i + 1..];
      if IsConcat(children[i]) {
        r := r + [children[i].id];
      }
    }
    assert children[|children|..] == [];
  }

  /** The INPUT ports of a list, in order. */
  function InputPorts(ports: seq<Port>): (r: seq<Port>)
  {
    if ports == [] then []
    else (if ports[0].direction == INPUT then [ports[0]] else []) + InputPorts(ports[1..])
  }

  /** Exactly the INPUT ports are selected, each from the list. */
  lemma {:induction false} InputPortsSelect(ports: seq<Port>)
    ensures forall p :: p in InputPorts(ports) <==> p in ports && p.direction == INPUT
  {
    if ports != [] {
      InputPortsSelect(ports[1..]);
      assert forall p :: p in ports <==> p == ports[0] || p in ports[1..];
    }
  }

  /** `getChildInputPorts`. */
  method GetChildInputPorts(ports: seq<Port>) returns (r: seq<Port>)
    ensures r == InputPorts(ports)
  {
    r := [];
    for i := 0 to |ports|
      invariant r + InputPorts(ports[i..]) == InputPorts(ports)
    {
      assert ports[i..][1..] == ports[i + 1..];
      if ports[i].direction == INPUT {
        r := r + [ports[i]];
      }
    }
    assert ports[|ports|..] == [];
  }

  /** `getEdgeTargetsIndex`: the position of the first target on the port. */
  method GetEdgeTargetsIndex(targets: seq<Endpoint>, portId: nat) returns (r: Result<nat>)
    ensures r.Ok? <==> portId in PortIdsOf(targets)
    ensures r.Ok? ==> r.value < |targets| && targets[r.value].portId == portId
                      && forall j | 0 <= j < r.value :: targets[j].portId != portId
    ensures r.Err? ==> r.msg == "PortId was not found"
  {
    for i := 0 to |targets|
      invariant forall j | 0 <= j < i :: targets[j].portId != portId
    {
      if targets[i].portId == portId {
        assert PortIdsOf(targets)[i] == portId;
        return Ok(i);
      }
    }
    assert forall j | 0 <= j < |targets| :: PortIdsOf(targets)[j] != portId;
    return Err("PortId was not found");
  }

  /** The position of the first OUTPUT port, if there is one. */
  function FirstOutput(ports: seq<Port>): (r: Option<nat>)
    ensures r.Some? ==> r.value < |ports| && ports[r.value].direction == OUTPUT
    ensures r.Some? ==> forall j | 0 <= j < r.value :: ports[j].direction != OUTPUT
    ensures r.None? ==> forall j | 0 <= j < |ports| :: ports[j].direction != OUTPUT
  {
    if ports == [] then None
    else if ports[0].direction == OUTPUT then Some(0)
    else
      var r := FirstOutput(ports[1..]);
      if r.Some? then Some(r.value + 1) else None
  }

  /** `getChildTargetPortId`: the id of the node's first OUTPUT port. */
  method GetChildTargetPortId(child: Node) returns (r: Result<nat>)
    ensures r.Ok? <==> FirstOutput(child.ports).Some?
    ensures r.Ok? ==> r.value == child.ports[FirstOutput(child.ports).value].id
    ensures r.Ok? <==> exists k | 0 <= k < |child.ports| :: child.ports[k].direction == OUTPUT
    ensures r.Ok? ==> exists k | 0 <= k < |child.ports| ::
                        && child.ports[k].id == r.value && child.ports[k].direction == OUTPUT
                        && (forall j | 0 <= j < k :: child.ports[j].direction != OUTPUT)
    ensures r.Err? ==> r.msg == "Concat child has no target"
  {
    for i := 0 to |child.ports|
      invariant forall j | 0 <= j < i :: child.ports[j].direction != OUTPUT
    {
      if child.ports[i].direction == OUTPUT {
        return Ok(child.ports[i].id);
      }
    }
    return Err("Concat child has no target");
  }

  // ---------------------------------------------------------------------
  // Placing the ports of a merged CONCAT

  /** `ports.splice(start, 0, x)` for a start that is not negative: a start
      past the end appends. */
  function Splice(s: seq<Port>, start: nat, x: Port): (r: seq<Port>)
    ensures |r| == |s| + 1
  {
    var k := if start < |s| then start else |s|;
    s[..k] + [x] + s[k..]
  }

  /** The ports of the right CONCAT once the left one's inputs are in:
      with the target port at `idx`, the inputs take its place in order;
      with `idx == -1` (what `indexOf` gives for a port that is not there)
      the assignment to position -1 adds nothing, so the first input is lost
      and the others are inserted at the front. */
  function Placed(ports: seq<Port>, idx: int, inputs: seq<Port>): (r: seq<Port>)
    requires -1 <= idx < |ports|
  {
    if inputs == [] then ports
    else if idx >= 0 then ports[..idx] + inputs + ports[idx + 1..]
    else inputs[1..] + ports
  }

  /** The port placement loop of `aggregateTwoConcats` as written: the first
      input replaces the port at `idx`, each later one is spliced in after
      the one before it. */
  method PlaceInputs(ports: seq<Port>, idx: int, inputs: seq<Port>) returns (r: seq<Port>)
    requires -1 <= idx < |ports|
    ensures r == Placed(ports, idx, inputs)
  {
    r := ports;
    for i := 0 to |inputs|
      invariant r == Placed(ports, idx, inputs[..i])
    {
      if i == 0 {
        if idx >= 0 {
          r := r[idx := inputs[0]];
          assert r == ports[..idx] + inputs[..1] + ports[idx + 1..];
        }
      } else {
        assert inputs[..i + 1] == inputs[..i] + [inputs[i]];
        if idx >= 0 {
          assert idx + i <= |r|;
          assert Splice(r, idx + i, inputs[i]) == ports[..idx] + inputs[..i + 1] + ports[idx + 1..];
        } else {
          assert Splice(r, idx + i, inputs[i]) == inputs[1..i + 1] + ports;
        }
        r := Splice(r, idx + i, inputs[i]);
      }
    }
    assert inputs[..|inputs|] == inputs;
  }

  /** With the target port found, the inputs replace it: every input ends up
      in the list and, of the old ports, exactly the target port leaves. */
  lemma PlacedReplacesTarget(ports: seq<Port>, idx: nat, inputs: seq<Port>)
    requires idx < |ports| && inputs != []
    ensures multiset(Placed(ports, idx, inputs)) == multiset(ports) - multiset{ports[idx]} + multiset(inputs)
  {
    assert ports == ports[..idx] + [ports[idx]] + ports[idx + 1..];
  }

  /** With the target port missing, the first input port is lost: it is in
      none of the places the merged ports end up. */
  lemma MissingTargetLosesFirstInput(ports: seq<Port>, inputs: seq<Port>)
    requires inputs != [] && inputs[0] !in ports && inputs[0] !in inputs[1..]
    ensures inputs[0] !in Placed(ports, -1, inputs)
    ensures multiset(Placed(ports, -1, inputs)) == multiset(ports) + multiset(inputs) - multiset{inputs[0]}
  {
    assert inputs == [inputs[0]] + inputs[1..];
  }

  /** Every placed port comes from the right node's ports or from the inputs. */
  lemma PlacedFrom(ports: seq<Port>, idx: int, inputs: seq<Port>)
    requires -1 <= idx < |ports|
    ensures forall p | p in Placed(ports, idx, inputs) :: p in ports || p in inputs
  {
    if inputs != [] && idx >= 0 {
      forall p | p in ports[..idx] + ports[idx + 1..] ensures p in ports {
        if p in ports[..idx] {
          var k :| 0 <= k < idx && ports[..idx][k] == p;
          assert ports[k] == p;
        } else {
          var k :| 0 <= k < |ports[idx + 1..]| && ports[idx + 1..][k] == p;
          assert ports[idx + 1 + k] == p;
        }
      }
    }
  }

  // ---------------------------------------------------------------------
  // Retargeting the edges into a merged CONCAT

  const MissingEdge := "Cannot read the targets of an undefined edge"

  /** The port has a dictionary entry, and the edge it names has a target
      on the port. */
  predicate Retargetable(edges: map<nat, Edge>, edgeOf: map<nat, nat>, portId: nat)
  {
    portId in edgeOf && edgeOf[portId] in edges && portId in PortIdsOf(edges[edgeOf[portId]].targets)
  }

  /** The position of the first target on the port. */
  function FirstTarget(targets: seq<Endpoint>, portId: nat): (r: nat)
    requires portId in PortIdsOf(targets)
    ensures r < |targets| && targets[r].portId == portId
    ensures forall j | 0 <= j < r :: targets[j].portId != portId
  {
    assert PortIdsOf(targets)[0] == targets[0].portId;
    if targets[0].portId == portId then 0
    else
      assert PortIdsOf(targets[1..]) == PortIdsOf(targets)[1..];
      1 + FirstTarget(targets[1..], portId)
  }

  /** Pointing one target at another node leaves the target ports as they are. */
  lemma RenodeKeepsPorts(targets: seq<Endpoint>, i: nat, nodeId: nat)
    requires i < |targets|
    ensures PortIdsOf(targets[i := Endpoint(nodeId, targets[i].portId)]) == PortIdsOf(targets)
  {
  }

  /** One step of the loop: the first target on the port, in the edge the
      dictionary names, now names the right CONCAT. */
  function RetargetOne(edges: map<nat, Edge>, edgeOf: map<nat, nat>, portId: nat, right: nat): map<nat, Edge>
    requires Retargetable(edges, edgeOf, portId)
  {
    var e := edges[edgeOf[portId]];
    edges[edgeOf[portId] := e.(targets := e.targets[FirstTarget(e.targets, portId) := Endpoint(right, portId)])]
  }

  /** The same edges with the same ids, names, sources and target ports:
      only the node ids of targets may differ. */
  predicate SameWiring(a: map<nat, Edge>, b: map<nat, Edge>)
  {
    && a.Keys == b.Keys
    && forall eid | eid in a ::
         && b[eid].id == a[eid].id && b[eid].name == a[eid].name && b[eid].sources == a[eid].sources
         && PortIdsOf(b[eid].targets) == PortIdsOf(a[eid].targets)
  }

  lemma RetargetOneWiring(edges: map<nat, Edge>, edgeOf: map<nat, nat>, portId: nat, right: nat)
    requires Retargetable(edges, edgeOf, portId)
    ensures SameWiring(edges, RetargetOne(edges, edgeOf, portId, right))
  {
    var e := edges[edgeOf[portId]];
    RenodeKeepsPorts(e.targets, FirstTarget(e.targets, portId), right);
  }

  lemma WiringKeepsRetargetable(a: map<nat, Edge>, b: map<nat, Edge>, edgeOf: map<nat, nat>, portId: nat)
    requires SameWiring(a, b)
    ensures Retargetable(a, edgeOf, portId) <==> Retargetable(b, edgeOf, portId)
  {
    if portId in edgeOf && edgeOf[portId] in a {
      assert PortIdsOf(b[edgeOf[portId]].targets) == PortIdsOf(a[edgeOf[portId]].targets);
    }
  }

  lemma WiringTrans(a: map<nat, Edge>, b: map<nat, Edge>, c: map<nat, Edge>)
    requires SameWiring(a, b) && SameWiring(b, c)
    ensures SameWiring(a, c)
  {
  }

  predicate AllRetargetable(edges: map<nat, Edge>, edgeOf: map<nat, nat>, inputs: seq<Port>)
  {
    forall k | 0 <= k < |inputs| :: Retargetable(edges, edgeOf, inputs[k].id)
  }

  lemma WiringKeepsAllRetargetable(a: map<nat, Edge>, b: map<nat, Edge>, edgeOf: map<nat, nat>, inputs: seq<Port>)
    requires SameWiring(a, b)
    ensures AllRetargetable(a, edgeOf, inputs) <==> AllRetargetable(b, edgeOf, inputs)
  {
    forall k | 0 <= k < |inputs| {
      WiringKeepsRetargetable(a, b, edgeOf, inputs[k].id);
    }
  }

  /** All the steps of the loop, for the inputs in order. */
  function RetargetAll(edges: map<nat, Edge>, edgeOf: map<nat, nat>, inputs: seq<Port>, right: nat): (r: map<nat, Edge>)
    requires AllRetargetable(edges, edgeOf, inputs)
    ensures SameWiring(edges, r)
    decreases |inputs|
  {
    if inputs == [] then edges
    else
      var last := inputs[|inputs| - 1];
      var init := inputs[..|inputs| - 1];
      assert forall k | 0 <= k < |init| :: init[k] == inputs[k];
      var before := RetargetAll(edges, edgeOf, init, right);
      WiringKeepsRetargetable(edges, before, edgeOf, last.id);
      RetargetOneWiring(before, edgeOf, last.id, right);
      WiringTrans(edges, before, RetargetOne(before, edgeOf, last.id, right));
      RetargetOne(before, edgeOf, last.id, right)
  }

  /** The port's edge, after the steps, targets the right CONCAT at the
      position of the port's first target before them. */
  predicate LinkedTo(before: map<nat, Edge>, after: map<nat, Edge>, edgeOf: map<nat, nat>, portId: nat, right: nat)
  {
    && Retargetable(before, edgeOf, portId) && edgeOf[portId] in after
    && var i := FirstTarget(before[edgeOf[portId]].targets, portId);
       && i < |after[edgeOf[portId]].targets|
       && after[edgeOf[portId]].targets[i] == Endpoint(right, portId)
  }

  /** A step keeps a link made by an earlier step: it either changes another
      entry or writes the same endpoint again. */
  lemma RetargetOneKeepsLink(edges: map<nat, Edge>, mid: map<nat, Edge>, edgeOf: map<nat, nat>, portId: nat, q: nat, right: nat)
    requires SameWiring(edges, mid) && LinkedTo(edges, mid, edgeOf, q, right) && Retargetable(mid, edgeOf, portId)
    ensures LinkedTo(edges, RetargetOne(mid, edgeOf, portId, right), edgeOf, q, right)
  {
    var eq := edgeOf[q];
    var iq := FirstTarget(edges[eq].targets, q);
    var ep := edgeOf[portId];
    var ip := FirstTarget(mid[ep].targets, portId);
    if ep == eq && ip == iq {
      assert mid[eq].targets[iq].portId == q;
    }
  }

  /** A step links its own port. */
  lemma RetargetOneLinks(edges: map<nat, Edge>, mid: map<nat, Edge>, edgeOf: map<nat, nat>, portId: nat, right: nat)
    requires SameWiring(edges, mid) && Retargetable(edges, edgeOf, portId)
    ensures Retargetable(mid, edgeOf, portId)
    ensures LinkedTo(edges, RetargetOne(mid, edgeOf, portId, right), edgeOf, portId, right)
  {
    WiringKeepsRetargetable(edges, mid, edgeOf, portId);
    var a := edges[edgeOf[portId]].targets;
    var b := mid[edgeOf[portId]].targets;
    assert PortIdsOf(b) == PortIdsOf(a);
    assert forall j | 0 <= j < |a| :: b[j].portId == PortIdsOf(b)[j] == a[j].portId;
    FirstTargetUnique(a, portId, FirstTarget(b, portId));
  }

  /** The first target on a port is the only position with that property. */
  lemma FirstTargetUnique(targets: seq<Endpoint>, portId: nat, t: nat)
    requires t < |targets| && targets[t].portId == portId
    requires forall j | 0 <= j < t :: targets[j].portId != portId
    ensures portId in PortIdsOf(targets) && FirstTarget(targets, portId) == t
  {
    assert PortIdsOf(targets)[t] == portId;
  }

  /** The last step of the loop. */
  lemma RetargetAllSnoc(edges: map<nat, Edge>, edgeOf: map<nat, nat>, inputs: seq<Port>, i: nat, right: nat)
    requires i < |inputs| && AllRetargetable(edges, edgeOf, inputs[..i + 1])
    ensures AllRetargetable(edges, edgeOf, inputs[..i])
    ensures Retargetable(RetargetAll(edges, edgeOf, inputs[..i], right), edgeOf, inputs[i].id)
    ensures RetargetAll(edges, edgeOf, inputs[..i + 1], right)
            == RetargetOne(RetargetAll(edges, edgeOf, inputs[..i], right), edgeOf, inputs[i].id, right)
  {
    var pre := inputs[..i + 1];
    assert pre[..|pre| - 1] == inputs[..i];
    assert pre[|pre| - 1] == inputs[i];
    assert forall k | 0 <= k < i :: inputs[..i][k] == pre[k];
    WiringKeepsRetargetable(edges, RetargetAll(edges, edgeOf, inputs[..i], right), edgeOf, inputs[i].id);
  }

  /** After the loop, the edge each input's dictionary entry names targets
      the right CONCAT on that input port, at the position where it used to
      target the left one. */
  lemma {:induction false} RetargetAllLinks(edges: map<nat, Edge>, edgeOf: map<nat, nat>, inputs: seq<Port>, right: nat)
    requires AllRetargetable(edges, edgeOf, inputs)
    ensures forall k | 0 <= k < |inputs| :: LinkedTo(edges, RetargetAll(edges, edgeOf, inputs, right), edgeOf, inputs[k].id, right)
    decreases |inputs|
  {
    if inputs != [] {
      var n := |inputs| - 1;
      RetargetAllSnoc(edges, edgeOf, inputs, n, right);
      RetargetAllLinks(edges, edgeOf, inputs[..n], right);
      var before := RetargetAll(edges, edgeOf, inputs[..n], right);
      LinkedPrefix(edges, before, edgeOf, inputs, n, right);
      assert inputs[..n + 1] == inputs;
      RetargetAllLinksStep(edges, edgeOf, inputs, before, right);
    }
  }

  lemma LinkedPrefix(edges: map<nat, Edge>, before: map<nat, Edge>, edgeOf: map<nat, nat>, inputs: seq<Port>, n: nat,
                     right: nat)
    requires n <= |inputs|
    requires forall k | 0 <= k < n :: LinkedTo(edges, before, edgeOf, inputs[..n][k].id, right)
    ensures forall k | 0 <= k < n :: LinkedTo(edges, before, edgeOf, inputs[k].id, right)
  {
    forall k | 0 <= k < n ensures LinkedTo(edges, before, edgeOf, inputs[k].id, right) {
      assert inputs[..n][k] == inputs[k];
    }
  }

  lemma RetargetAllLinksStep(edges: map<nat, Edge>, edgeOf: map<nat, nat>, inputs: seq<Port>, before: map<nat, Edge>,
                             right: nat)
    requires inputs != [] && SameWiring(edges, before)
    requires Retargetable(edges, edgeOf, inputs[|inputs| - 1].id)
    requires forall k | 0 <= k < |inputs| - 1 :: LinkedTo(edges, before, edgeOf, inputs[k].id, right)
    ensures forall k | 0 <= k < |inputs| ::
      LinkedTo(edges, RetargetOne(before, edgeOf, inputs[|inputs| - 1].id, right), edgeOf, inputs[k].id, right)
  {
    var n := |inputs| - 1;
    WiringKeepsRetargetable(edges, before, edgeOf, inputs[n].id);
    forall k | 0 <= k < |inputs|
      ensures LinkedTo(edges, RetargetOne(before, edgeOf, inputs[n].id, right), edgeOf, inputs[k].id, right)
    {
      if k < n {
        RetargetOneKeepsLink(edges, before, edgeOf, inputs[n].id, inputs[k].id, right);
      } else {
        RetargetOneLinks(edges, before, edgeOf, inputs[n].id, right);
      }
    }
  }

  /** The edge loop of `aggregateTwoConcats`: every input port's edge is
      found in the dictionary and its target on the port is pointed at the
      right CONCAT. A port with no edge fails (the source dereferences an
      undefined edge); an edge without a target on the port fails as
      `getEdgeTargetsIndex` does. */
  method RetargetInputs(edges: map<nat, Edge>, edgeOf: map<nat, nat>, inputs: seq<Port>, right: nat)
    returns (r: Result<map<nat, Edge>>)
    ensures r.Ok? <==> AllRetargetable(edges, edgeOf, inputs)
    ensures r.Ok? ==> r.value == RetargetAll(edges, edgeOf, inputs, right)
    ensures r.Err? ==> r.msg == MissingEdge || r.msg == "PortId was not found"
  {
    var cur := edges;
    for i := 0 to |inputs|
      invariant AllRetargetable(edges, edgeOf, inputs[..i])
      invariant cur == RetargetAll(edges, edgeOf, inputs[..i], right)
    {
      var step := RetargetInput(edges, edgeOf, inputs, i, cur, right);
      if step.Err? {
        AllRetargetablePrefix(edges, edgeOf, inputs, i + 1);
        return Err(step.msg);
      }
      cur := step.value;
    }
    assert inputs[..|inputs|] == inputs;
    return Ok(cur);
  }

  /** One turn of that loop: input `i` is retargeted in `cur`, the edges
      after the turns before it. */
  method RetargetInput(edges: map<nat, Edge>, edgeOf: map<nat, nat>, inputs: seq<Port>, i: nat,
                       cur: map<nat, Edge>, right: nat)
    returns (r: Result<map<nat, Edge>>)
    requires i < |inputs| && AllRetargetable(edges, edgeOf, inputs[..i])
    requires cur == RetargetAll(edges, edgeOf, inputs[..i], right)
    ensures r.Ok? <==> AllRetargetable(edges, edgeOf, inputs[..i + 1])
    ensures r.Ok? ==> r.value == RetargetAll(edges, edgeOf, inputs[..i + 1], right)
    ensures r.Err? ==> r.msg == MissingEdge || r.msg == "PortId was not found"
  {
    var portId := inputs[i].id;
    WiringKeepsRetargetable(edges, cur, edgeOf, portId);
    assert inputs[..i + 1][i] == inputs[i];
    if portId !in edgeOf || edgeOf[portId] !in cur {
      return Err(MissingEdge);
    }
    var e := cur[edgeOf[portId]];
    var t := GetEdgeTargetsIndex(e.targets, portId);
    if t.Err? {
      return Err(t.msg);
    }
    FirstTargetUnique(e.targets, portId, t.value);
    AllRetargetableSnoc(edges, edgeOf, inputs, i);
    RetargetAllSnoc(edges, edgeOf, inputs, i, right);
    r := Ok(cur[edgeOf[portId] := e.(targets := e.targets[t.value := Endpoint(right, portId)])]);
  }

  lemma AllRetargetableSnoc(edges: map<nat, Edge>, edgeOf: map<nat, nat>, inputs: seq<Port>, i: nat)
    requires i < |inputs| && AllRetargetable(edges, edgeOf, inputs[..i])
    requires Retargetable(edges, edgeOf, inputs[i].id)
    ensures AllRetargetable(edges, edgeOf, inputs[..i + 1])
  {
    assert forall k | 0 <= k < i :: inputs[..i + 1][k] == inputs[..i][k];
  }

  lemma AllRetargetablePrefix(edges: map<nat, Edge>, edgeOf: map<nat, nat>, inputs: seq<Port>, j: nat)
    requires j <= |inputs| && !AllRetargetable(edges, edgeOf, inputs[..j])
    ensures !AllRetargetable(edges, edgeOf, inputs)
  {
    var k :| 0 <= k < j && !Retargetable(edges, edgeOf, inputs[..j][k].id);
    assert inputs[..j][k] == inputs[k];
  }

  // ---------------------------------------------------------------------
  // What merging may change, and the maxId bound it keeps

  const MissingTargetPort := "targetPort itself is missing in rightConcatNode"
  const MissingNode := "Cannot read the metadata of an undefined node"
  const MissingPort := "Cannot read the id of an undefined port"
  const MissingSource := "Cannot set the first source of an undefined edge"

  /** Merging changes a node's ports and its `maxId` and nothing else. */
  predicate Reshaped(a: Node, b: Node)
  {
    && b.id == a.id && b.name == a.name && b.cls == a.cls
    && b.children == a.children && b.childrenAt == a.childrenAt && b.edges == a.edges && b.edgesAt == a.edgesAt
  }

  /** `if (mine < theirs) mine = theirs`, where a comparison with an
      undefined value is false. */
  function Raised(mine: Option<int>, theirs: Option<int>): (r: Option<int>)
    ensures mine.Some? && theirs.Some? ==> r.Some? && r.value >= mine.value && r.value >= theirs.value
                                           && (r.value == mine.value || r.value == theirs.value)
    ensures mine.None? || theirs.None? ==> r == mine
  {
    if mine.Some? && theirs.Some? && mine.value < theirs.value then theirs else mine
  }

  /** The parent is a plain node, and every other node passes `checkMaxId`
      with a `maxId` no larger than `bound`. */
  predicate Bounded(nodes: map<nat, Node>, parentId: nat, bound: int)
  {
    && parentId in nodes && !IsConcat(nodes[parentId]) && !IsSlice(nodes[parentId])
    && forall nid | nid in nodes && nid != parentId :: CheckMaxId(nodes[nid]) && nodes[nid].maxId.value <= bound
  }

  /** Ports taken from a list the bound covers are covered too. */
  lemma PortsFrom(ps: seq<Port>, qs: seq<Port>, m: int)
    requires (forall p | p in ps :: p in qs) && PortsWithin(qs, m)
    ensures PortsWithin(ps, m)
  {
    forall k | 0 <= k < |ps| ensures CheckMaxIdPorts(m, ps[k]) {
      assert ps[k] in ps;
      var j :| 0 <= j < |qs| && qs[j] == ps[k];
    }
  }

  /** A node that passes `checkMaxId` still passes it with new ports under a
      raised `maxId` that covers them. */
  lemma Regrown(n: Node, ports: seq<Port>, m: int)
    requires CheckMaxId(n) && n.maxId.value <= m && PortsWithin(ports, m)
    ensures CheckMaxId(n.(ports := ports, maxId := Some(m)))
  {
    CheckMaxIdIsContentWithin(n);
    ContentWithinMonotone(n, n.maxId.value, m);
    CheckMaxIdIsContentWithin(n.(ports := ports, maxId := Some(m)));
  }

  lemma {:induction false} ShapesKeepIds(ps: seq<Port>)
    ensures PortsIds(YosysUtils.Shapes(ps)) == PortsIds(ps)
    ensures PortCount(YosysUtils.Shapes(ps)) == YosysUtils.PortCount(ps)
    ensures |YosysUtils.Shapes(ps)| == |ps|
    decreases ps
  {
    if ps != [] {
      ShapesKeepIds(ps[0].children);
      ShapesKeepIds(ps[1..]);
      var sh := YosysUtils.Shapes(ps);
      assert sh[0] == YosysUtils.Shape(ps[0]) && sh[1..] == YosysUtils.Shapes(ps[1..]);
    }
  }

  function PortCount(ps: seq<Port>): nat
  {
    YosysUtils.PortCount(ps)
  }

  /** Renumbering keeps every id, so it keeps the bound. */
  lemma ShapesKeepWithin(ps: seq<Port>, qs: seq<Port>, m: int)
    requires YosysUtils.Shapes(ps) == YosysUtils.Shapes(qs) && PortsWithin(ps, m)
    ensures PortsWithin(qs, m)
  {
    ShapesKeepIds(ps);
    ShapesKeepIds(qs);
    PortsCovered(m, ps);
    PortsCovered(m, qs);
  }

  /** The top-level ports carry `0, 1, ...` in clockwise order, nested ports
      included. */
  predicate Numbered(ps: seq<Port>)
  {
    YosysUtils.NumberingOrder(ps) == YosysUtils.Consecutive(0, YosysUtils.PortCount(ps))
  }

  /** `updatePortIndices(ports, 0)` on a whole list. */
  method Renumbered(ports: seq<Port>) returns (r: seq<Port>)
    ensures r == YosysUtils.Numbering(ports, 0)
    ensures YosysUtils.Shapes(r) == YosysUtils.Shapes(ports) && Numbered(r)
  {
    var next;
    r, next := YosysUtils.UpdatePortIndices(ports, 0);
    ShapesKeepIds(r);
    ShapesKeepIds(ports);
  }

  /** The entries of a dictionary keyed by id, in the order of a list of ids. */
  function Gather<T>(m: map<nat, T>, ids: seq<nat>): (r: seq<T>)
    requires forall k | 0 <= k < |ids| :: ids[k] in m
    ensures |r| == |ids| && forall k | 0 <= k < |ids| :: r[k] == m[ids[k]]
  {
    seq(|ids|, k requires 0 <= k < |ids| => m[ids[k]])
  }

  lemma {:induction false} WithoutTwice(ids: seq<nat>, a: set<nat>, b: set<nat>)
    ensures Without(Without(ids, a), b) == Without(ids, a + b)
  {
    if ids != [] {
      WithoutTwice(ids[1..], a, b);
      var rest := Without(ids[1..], a);
      if ids[0] in a {
        assert Without(ids, a) == rest;
      } else {
        var t := [ids[0]] + rest;
        assert Without(ids, a) == t;
        assert t[0] == ids[0] && t[1..] == rest;
        assert Without(t, b) == (if ids[0] in b then [] else [ids[0]]) + Without(rest, b);
      }
    }
  }

  /** Filtering out what was added to a growing set, step by step, is
      filtering out all of it at once. */
  lemma WithoutGrown(ids: seq<nat>, m0: set<nat>, m1: set<nat>, m2: set<nat>)
    requires m0 <= m1 <= m2
    ensures Without(Without(ids, m1 - m0), m2 - m1) == Without(ids, m2 - m0)
  {
    WithoutTwice(ids, m1 - m0, m2 - m1);
    assert (m1 - m0) + (m2 - m1) == m2 - m0;
  }

  /** The port moved to the first slice and the one the other slice is left
      with: the first slice gains the other's second port (its output), and
      the other keeps no port. */
  function Absorbed(ns: map<nat, Node>, initial: nat, oldId: nat): map<nat, Node>
    requires initial in ns && oldId in ns && |ns[oldId].ports| >= 2
  {
    var i := ns[initial];
    var n1 := ns[initial := i.(ports := i.ports + [ns[oldId].ports[1]], maxId := Raised(i.maxId, ns[oldId].maxId))];
    n1[oldId := n1[oldId].(ports := [])]
  }

  /** Absorbing keeps the dictionary's keys and kinds, empties the absorbed
      slice, touches no third node, and leaves every unfolded slice whole. */
  lemma AbsorbedWhole(ns: map<nat, Node>, initial: nat, oldId: nat, merged: set<nat>)
    requires initial in ns && oldId in ns && |ns[oldId].ports| >= 2 && initial != oldId && initial !in merged
    ensures var ns' := Absorbed(ns, initial, oldId);
            && ns'.Keys == ns.Keys && ns'[oldId].ports == []
            && (forall x | x in ns :: IsSlice(ns'[x]) == IsSlice(ns[x]))
            && (forall x | x in ns && x != initial && x != oldId :: ns'[x] == ns[x])
    ensures (forall nid | nid in ns && IsSlice(ns[nid]) && nid !in merged :: |ns[nid].ports| >= 2) ==>
            var ns' := Absorbed(ns, initial, oldId);
            forall nid | nid in ns' && IsSlice(ns'[nid]) && nid !in merged + {oldId} :: |ns'[nid].ports| >= 2
  {
  }

  /** The edge on the port has a first source. */
  predicate HasSource(edges: map<nat, Edge>, edgeOf: map<nat, nat>, portId: nat)
  {
    portId in edgeOf && edgeOf[portId] in edges && |edges[edgeOf[portId]].sources| > 0
  }

  /** The first source of the edge now names the node `nodeId`. */
  function Resourced(edges: map<nat, Edge>, eid: nat, nodeId: nat): map<nat, Edge>
    requires eid in edges && |edges[eid].sources| > 0
  {
    var e := edges[eid];
    edges[eid := e.(sources := e.sources[0 := Endpoint(nodeId, e.sources[0].portId)])]
  }

  /** The nodes of `pick` have renumbered ports and nothing else new; the
      other nodes are unchanged. */
  ghost predicate RenumberedAt(before: map<nat, Node>, after: map<nat, Node>, pick: set<nat>)
  {
    && after.Keys == before.Keys
    && forall nid | nid in after ::
         if nid in pick then
           && after[nid] == before[nid].(ports := after[nid].ports)
           && YosysUtils.Shapes(after[nid].ports) == YosysUtils.Shapes(before[nid].ports)
           && Numbered(after[nid].ports)
         else after[nid] == before[nid]
  }

  lemma RenumberedStep(a: map<nat, Node>, b: map<nat, Node>, c: map<nat, Node>, pick: set<nat>, x: nat)
    requires RenumberedAt(a, b, pick) && x in b && x in c
    requires c == b[x := b[x].(ports := c[x].ports)]
    requires YosysUtils.Shapes(c[x].ports) == YosysUtils.Shapes(b[x].ports) && Numbered(c[x].ports)
    ensures RenumberedAt(a, c, pick + {x})
  {
  }

  /** The first two targets are on two different slices. */
  predicate TwoSlicesFirst(ts: seq<Endpoint>, ns: map<nat, Node>)
  {
    && |ts| >= 2 && ts[0].nodeId in ns && ts[1].nodeId in ns && ts[0].nodeId != ts[1].nodeId
    && IsSlice(ns[ts[0].nodeId]) && IsSlice(ns[ts[1].nodeId])
  }

  /** An edge with exactly two targets, both on the same SLICE. */
  predicate SameSliceTwice(ts: seq<Endpoint>, ns: map<nat, Node>)
  {
    && |ts| == 2 && ts[0].nodeId == ts[1].nodeId && ts[0].nodeId in ns && IsSlice(ns[ts[0].nodeId])
  }

  /** The SLICE `n` can be folded: it has an output port, and the edge on
      that port has a source. */
  predicate SliceFoldable(n: Node, edges: map<nat, Edge>, edgeOf: map<nat, nat>)
  {
    |n.ports| >= 2 && HasSource(edges, edgeOf, n.ports[1].id)
  }

  /** Filtering the targets around `initial` keeps every target on it. */
  lemma KeptOnInitial(ts: seq<Endpoint>, ns: map<nat, Node>, initial: nat)
    requires AllIn(ts, ns) && forall k | 0 <= k < |ts| :: ts[k].nodeId == initial
    ensures Kept(ts, ns, initial) == ts
  {
    if ts != [] {
      KeptOnInitial(ts[1..], ns, initial);
    }
  }

  /** Every endpoint is on a node of the dictionary. */
  predicate AllIn(ts: seq<Endpoint>, ns: map<nat, Node>)
  {
    forall k | 0 <= k < |ts| :: ts[k].nodeId in ns
  }

  /** `filterTargets`: the targets on the first slice or on a node that is no slice. */
  function Kept(ts: seq<Endpoint>, ns: map<nat, Node>, initial: nat): (r: seq<Endpoint>)
    requires AllIn(ts, ns)
  {
    if ts == [] then []
    else
      (if ts[0].nodeId == initial || !IsSlice(ns[ts[0].nodeId]) then [ts[0]] else [])
      + Kept(ts[1..], ns, initial)
  }

  /** Exactly the targets on the first slice or on other kinds of node stay. */
  lemma {:induction false} KeptSelect(ts: seq<Endpoint>, ns: map<nat, Node>, initial: nat)
    requires AllIn(ts, ns)
    ensures forall t :: t in Kept(ts, ns, initial) <==> t in ts && (t.nodeId == initial || !IsSlice(ns[t.nodeId]))
  {
    if ts != [] {
      KeptSelect(ts[1..], ns, initial);
      assert forall t :: t in ts <==> t == ts[0] || t in ts[1..];
    }
  }

  /** The node is a SLICE of the dictionary not folded into another yet. */
  predicate Whole(nid: nat, nodes: map<nat, Node>, merged: set<nat>)
  {
    nid in nodes && IsSlice(nodes[nid]) && nid !in merged
  }

  /** The first target on a whole SLICE: the one `aggregateEdgeTargets`
      folds the others into. */
  function FirstWhole(ts: seq<Endpoint>, nodes: map<nat, Node>, merged: set<nat>): (r: Option<nat>)
    ensures r.Some? ==> r.value in WholeAmong(ts, nodes, merged)
    ensures r.None? ==> WholeAmong(ts, nodes, merged) == {}
    decreases |ts|
  {
    if ts == [] then None
    else
      var init := ts[..|ts| - 1];
      var last := ts[|ts| - 1];
      assert forall k | 0 <= k < |init| :: init[k] == ts[k];
      var f := FirstWhole(init, nodes, merged);
      if f.Some? then f
      else if Whole(last.nodeId, nodes, merged) then Some(last.nodeId)
      else None
  }

  /** The whole SLICEs among the targets. */
  function WholeAmong(ts: seq<Endpoint>, nodes: map<nat, Node>, merged: set<nat>): set<nat>
  {
    set k | 0 <= k < |ts| && Whole(ts[k].nodeId, nodes, merged) :: ts[k].nodeId
  }

  /** The SLICEs `aggregateEdgeTargets` folds away: the whole ones among the
      targets but the first. */
  function FoldedAway(ts: seq<Endpoint>, nodes: map<nat, Node>, merged: set<nat>): set<nat>
  {
    var first := FirstWhole(ts, nodes, merged);
    WholeAmong(ts, nodes, merged) - (if first.Some? then {first.value} else {})
  }

  /** One more target extends the first whole SLICE and the whole SLICEs. */
  lemma WholeSnoc(ts: seq<Endpoint>, i: nat, nodes: map<nat, Node>, merged: set<nat>)
    requires i < |ts|
    ensures FirstWhole(ts[..i + 1], nodes, merged)
            == if FirstWhole(ts[..i], nodes, merged).Some? then FirstWhole(ts[..i], nodes, merged)
               else if Whole(ts[i].nodeId, nodes, merged) then Some(ts[i].nodeId) else None
    ensures WholeAmong(ts[..i + 1], nodes, merged)
            == WholeAmong(ts[..i], nodes, merged) + (if Whole(ts[i].nodeId, nodes, merged) then {ts[i].nodeId} else {})
  {
    assert ts[..i + 1][..i] == ts[..i];
    var a := WholeAmong(ts[..i + 1], nodes, merged);
    var b := WholeAmong(ts[..i], nodes, merged) + (if Whole(ts[i].nodeId, nodes, merged) then {ts[i].nodeId} else {});
    forall x | x in a ensures x in b {
      var k :| 0 <= k < i + 1 && Whole(ts[..i + 1][k].nodeId, nodes, merged) && ts[..i + 1][k].nodeId == x;
      if k < i {
        assert ts[..i][k] == ts[k];
      }
    }
    forall x | x in b ensures x in a {
      if x in WholeAmong(ts[..i], nodes, merged) {
        var k :| 0 <= k < i && Whole(ts[..i][k].nodeId, nodes, merged) && ts[..i][k].nodeId == x;
        assert ts[..i + 1][k] == ts[k];
      } else {
        assert ts[..i + 1][i] == ts[i];
      }
    }
  }

  /** After an edge's turn, no two targets are on two different whole
      SLICEs: the first one stayed, the others were folded or filtered out. */
  predicate OneWhole(ts: seq<Endpoint>, nodes: map<nat, Node>, merged: set<nat>)
  {
    forall a, b | 0 <= a < |ts| && 0 <= b < |ts| && Whole(ts[a].nodeId, nodes, merged) && Whole(ts[b].nodeId, nodes, merged) ::
      ts[a].nodeId == ts[b].nodeId
  }

  /** The dictionary after some folding has the same keys and kinds. */
  lemma KindsKept(a: map<nat, Node>, b: map<nat, Node>)
    requires a.Keys == b.Keys && forall x | x in a :: b[x].name == a[x].name && b[x].cls == a[x].cls
    ensures forall x | x in a :: IsSlice(b[x]) == IsSlice(a[x])
  {
  }

  /** One more target, with the SLICEs folded so far set aside, extends
      the first whole SLICE and the SLICEs folded away. */
  lemma FoldedStep(ts: seq<Endpoint>, i: nat, nodes0: map<nat, Node>, merged0: set<nat>,
                   nodes: map<nat, Node>, merged: set<nat>, next: Option<nat>, merged': set<nat>)
    requires i < |ts|
    requires nodes.Keys == nodes0.Keys && forall x | x in nodes0 :: IsSlice(nodes[x]) == IsSlice(nodes0[x])
    requires merged == merged0 + FoldedAway(ts[..i], nodes0, merged0)
    requires var initial := FirstWhole(ts[..i], nodes0, merged0);
             && next == (if initial.Some? then initial else if Whole(ts[i].nodeId, nodes, merged) then Some(ts[i].nodeId) else None)
             && merged' == merged + (if initial.Some? && ts[i].nodeId != initial.value && Whole(ts[i].nodeId, nodes, merged)
                                     then {ts[i].nodeId} else {})
    ensures next == FirstWhole(ts[..i + 1], nodes0, merged0)
    ensures merged' == merged0 + FoldedAway(ts[..i + 1], nodes0, merged0)
  {
    WholeSnoc(ts, i, nodes0, merged0);
  }

  /** Every target that left the list is on a SLICE folded into another. */
  predicate DroppedFolded(before: seq<Endpoint>, after: seq<Endpoint>, merged: set<nat>)
  {
    forall t | t in before && t !in after :: t.nodeId in merged
  }

  lemma DroppedFoldedTrans(a: seq<Endpoint>, b: seq<Endpoint>, c: seq<Endpoint>, m1: set<nat>, m2: set<nat>)
    requires DroppedFolded(a, b, m1) && m1 <= m2
    requires forall t | t in b && t !in c :: t.nodeId in m2
    ensures DroppedFolded(a, c, m2)
  {
  }

  /** Folding more SLICEs, with the kinds kept, keeps at most one whole
      SLICE among the targets. */
  lemma OneWholeGrows(ts: seq<Endpoint>, nodes: map<nat, Node>, merged: set<nat>, nodes': map<nat, Node>, merged': set<nat>)
    requires OneWhole(ts, nodes, merged) && merged <= merged'
    requires nodes'.Keys == nodes.Keys && forall x | x in nodes :: IsSlice(nodes'[x]) == IsSlice(nodes[x])
    ensures OneWhole(ts, nodes', merged')
  {
  }

  /** Filtering on the first whole SLICE drops only targets on SLICEs that
      were folded before the edge's turn or during it. */
  lemma KeptDropsFolded(ts: seq<Endpoint>, nodes0: map<nat, Node>, merged0: set<nat>, nodes: map<nat, Node>, first: nat)
    requires AllIn(ts, nodes) && FirstWhole(ts, nodes0, merged0) == Some(first)
    requires nodes.Keys == nodes0.Keys && forall x | x in nodes0 :: IsSlice(nodes[x]) == IsSlice(nodes0[x])
    ensures DroppedFolded(ts, Kept(ts, nodes, first), merged0 + FoldedAway(ts, nodes0, merged0))
  {
    KeptSelect(ts, nodes, first);
    forall t | t in ts && t !in Kept(ts, nodes, first) ensures t.nodeId in merged0 + FoldedAway(ts, nodes0, merged0) {
      var k :| 0 <= k < |ts| && ts[k] == t;
      if t.nodeId !in merged0 {
        assert t.nodeId in WholeAmong(ts, nodes0, merged0);
      }
    }
  }

  /** One edge's turn in `aggregateSplits` keeps the edges before it with
      at most one whole SLICE among their targets, makes the same true of
      its own, and drops only targets on folded SLICEs. */
  lemma SplitsStep(edges0: map<nat, Edge>, edges: map<nat, Edge>, edges': map<nat, Edge>,
                   nodes: map<nat, Node>, nodes': map<nat, Node>, merged: set<nat>, merged': set<nat>,
                   edgeList: seq<nat>, i: nat)
    requires i < |edgeList| && (forall k | 0 <= k < |edgeList| :: edgeList[k] in edges)
    requires edges'.Keys == edges.Keys == edges0.Keys && merged <= merged'
    requires nodes'.Keys == nodes.Keys && forall x | x in nodes :: IsSlice(nodes'[x]) == IsSlice(nodes[x])
    requires forall e | e in edges' && e != edgeList[i] :: edges'[e].targets == edges[e].targets
    requires forall k | 0 <= k < i :: OneWhole(edges[edgeList[k]].targets, nodes, merged)
    requires OneWhole(edges'[edgeList[i]].targets, nodes', merged')
    requires forall e | e in edges :: DroppedFolded(edges0[e].targets, edges[e].targets, merged)
    requires DroppedFolded(edges[edgeList[i]].targets, edges'[edgeList[i]].targets, merged')
    ensures forall k | 0 <= k < i + 1 :: OneWhole(edges'[edgeList[k]].targets, nodes', merged')
    ensures forall e | e in edges' :: DroppedFolded(edges0[e].targets, edges'[e].targets, merged')
  {
    forall k | 0 <= k < i + 1 ensures OneWhole(edges'[edgeList[k]].targets, nodes', merged') {
      if edgeList[k] != edgeList[i] {
        OneWholeGrows(edges[edgeList[k]].targets, nodes, merged, nodes', merged');
      }
    }
    forall e | e in edges' ensures DroppedFolded(edges0[e].targets, edges'[e].targets, merged') {
      DroppedFoldedTrans(edges0[e].targets, edges[e].targets, edges'[e].targets, merged, merged');
    }
  }

  /** The targets filtered on the first slice are on no other whole one. */
  lemma KeptOneWhole(ts: seq<Endpoint>, nodes: map<nat, Node>, merged: set<nat>, initial: nat)
    requires AllIn(ts, nodes)
    ensures OneWhole(Kept(ts, nodes, initial), nodes, merged)
  {
    KeptSelect(ts, nodes, initial);
    var k := Kept(ts, nodes, initial);
    forall a | 0 <= a < |k| && Whole(k[a].nodeId, nodes, merged) ensures k[a].nodeId == initial {
      assert k[a] in k;
    }
  }

  /** Targets on no whole slice are on no two. */
  lemma NoneWhole(ts: seq<Endpoint>, nodes: map<nat, Node>, merged: set<nat>)
    requires WholeAmong(ts, nodes, merged) == {}
    ensures OneWhole(ts, nodes, merged)
  {
    forall a | 0 <= a < |ts| && Whole(ts[a].nodeId, nodes, merged)
      ensures ts[a].nodeId in WholeAmong(ts, nodes, merged)
    {
    }
  }

  // ---------------------------------------------------------------------
  // The folding pass over one node

  /** Every node keeps its id, kind and contents, only CONCATs and SLICEs
      may have new ports or a new `maxId`, and no node comes or goes. */
  predicate NodesEvolved(orig: map<nat, Node>, nodes: map<nat, Node>, parentId: nat)
  {
    && nodes.Keys == orig.Keys && parentId in nodes
    && (forall nid | nid in nodes :: nodes[nid].id == nid && Reshaped(orig[nid], nodes[nid]))
    && (forall nid | nid in nodes && !IsConcat(orig[nid]) && !IsSlice(orig[nid]) :: nodes[nid] == orig[nid])
  }

  /** No edge comes or goes and each keeps its id. */
  predicate EdgesKept(edgeIds: set<nat>, edges: map<nat, Edge>)
  {
    edges.Keys == edgeIds && forall eid | eid in edges :: edges[eid].id == eid
  }

  /** New ports and `maxId` on a CONCAT keep the dictionary evolved from
      the original one. */
  lemma ReportedEvolved(orig: map<nat, Node>, nodes: map<nat, Node>, parentId: nat, right: nat,
                        ports: seq<Port>, maxId: Option<int>)
    requires NodesEvolved(orig, nodes, parentId) && right in nodes && IsConcat(nodes[right])
    ensures NodesEvolved(orig, nodes[right := nodes[right].(ports := ports, maxId := maxId)], parentId)
  {
  }

  /** Edges with the same wiring keep the edge ids. */
  lemma WiringKept(edgeIds: set<nat>, a: map<nat, Edge>, b: map<nat, Edge>)
    requires EdgesKept(edgeIds, a) && SameWiring(a, b)
    ensures EdgesKept(edgeIds, b) && b.Keys == a.Keys
  {
  }

  lemma AbsorbedEvolved(orig: map<nat, Node>, nodes: map<nat, Node>, parentId: nat, initial: nat, oldId: nat)
    requires NodesEvolved(orig, nodes, parentId) && initial in nodes && oldId in nodes
    requires IsSlice(nodes[initial]) && IsSlice(nodes[oldId]) && |nodes[oldId].ports| >= 2
    ensures NodesEvolved(orig, Absorbed(nodes, initial, oldId), parentId)
  {
  }

  lemma ResourcedKept(edgeIds: set<nat>, edges: map<nat, Edge>, eid: nat, nodeId: nat)
    requires EdgesKept(edgeIds, edges) && eid in edges && |edges[eid].sources| > 0
    ensures EdgesKept(edgeIds, Resourced(edges, eid, nodeId))
    ensures forall e | e in edges :: Resourced(edges, eid, nodeId)[e].targets == edges[e].targets
  {
  }

  // ---------------------------------------------------------------------
  // The CONCAT pass on values

  /** One round of the loop of `aggregateConcats` for the CONCAT `left`, on
      the dictionaries: the error that stops the pass, `None` when nothing
      merges, or the nodes and edges once `left` is merged into the CONCAT
      its first output port feeds, with the id of the edge between them. */
  function ConcatStep(nodes: map<nat, Node>, edges: map<nat, Edge>, edgeOf: map<nat, nat>, left: nat)
    : (r: Result<Option<(map<nat, Node>, map<nat, Edge>, nat)>>)
    requires left in nodes && forall p | p in edgeOf :: edgeOf[p] in edges
    ensures r.Ok? && r.value.Some? ==>
              && r.value.value.0.Keys == nodes.Keys && SameWiring(edges, r.value.value.1)
              && r.value.value.2 in edges
  {
    var out := FirstOutput(nodes[left].ports);
    if out.None? then Err("Concat child has no target")
    else
      var portId := nodes[left].ports[out.value].id;
      if portId !in edgeOf || |edges[edgeOf[portId]].targets| != 1 then Ok(None)
      else
        var t := edges[edgeOf[portId]].targets[0];
        if t.nodeId !in nodes then Err("Target node of target port is undefined")
        else if !IsConcat(nodes[t.nodeId]) then Ok(None)
        else ConcatMerge(nodes, edges, edgeOf, left, t, edgeOf[portId])
  }

  /** The merge of the CONCAT `left` into the one holding the target `t` of
      the edge `eid` on its first output port: the inputs of `left` take the
      target port's place, the edges on them are pointed at the right
      CONCAT, whose `maxId` is raised to the left one's. A right CONCAT
      without the target port, or an input port without an edge targeting
      it, fails. */
  function ConcatMerge(nodes: map<nat, Node>, edges: map<nat, Edge>, edgeOf: map<nat, nat>, left: nat, t: Endpoint, eid: nat)
    : (r: Result<Option<(map<nat, Node>, map<nat, Edge>, nat)>>)
    requires left in nodes && t.nodeId in nodes && eid in edges
    ensures r.Ok? ==> r.value.Some? && r.value.value.2 == eid
    ensures r.Ok? ==> r.value.value.0.Keys == nodes.Keys && SameWiring(edges, r.value.value.1)
    ensures r.Ok? ==> forall nid | nid in nodes && nid != t.nodeId :: r.value.value.0[nid] == nodes[nid]
  {
    var right := nodes[t.nodeId];
    var inputs := InputPorts(nodes[left].ports);
    var idx := FindPort(right.ports, t.portId);
    if idx.None? then Err(MissingTargetPort)
    else if !AllRetargetable(edges, edgeOf, inputs) then Err(MissingEdge)
    else
      var maxId := if inputs == [] then right.maxId else Raised(right.maxId, nodes[left].maxId);
      Ok(Some((nodes[t.nodeId := right.(ports := Placed(right.ports, idx.value, inputs), maxId := maxId)],
               RetargetAll(edges, edgeOf, inputs, t.nodeId), eid)))
  }

  /** The first OUTPUT port of `left` has an edge with a single target, and
      that target is on a CONCAT. */
  predicate FeedsConcat(nodes: map<nat, Node>, edges: map<nat, Edge>, edgeOf: map<nat, nat>, left: nat)
    requires left in nodes && forall p | p in edgeOf :: edgeOf[p] in edges
  {
    exists k | 0 <= k < |nodes[left].ports| ::
      && nodes[left].ports[k].direction == OUTPUT
      && (forall j | 0 <= j < k :: nodes[left].ports[j].direction != OUTPUT)
      && nodes[left].ports[k].id in edgeOf
      && var e := edges[edgeOf[nodes[left].ports[k].id]];
         |e.targets| == 1 && e.targets[0].nodeId in nodes && IsConcat(nodes[e.targets[0].nodeId])
  }

  /** A round that succeeds merges exactly when the CONCAT feeds another
      one through its first output port. */
  lemma ConcatStepMerges(nodes: map<nat, Node>, edges: map<nat, Edge>, edgeOf: map<nat, nat>, left: nat)
    requires left in nodes && forall p | p in edgeOf :: edgeOf[p] in edges
    ensures ConcatStep(nodes, edges, edgeOf, left).Ok? ==>
              (ConcatStep(nodes, edges, edgeOf, left).value.Some? <==> FeedsConcat(nodes, edges, edgeOf, left))
  {
    var ports := nodes[left].ports;
    var out := FirstOutput(ports);
    if FeedsConcat(nodes, edges, edgeOf, left) {
      var k :| 0 <= k < |ports| && ports[k].direction == OUTPUT
               && (forall j | 0 <= j < k :: ports[j].direction != OUTPUT)
               && ports[k].id in edgeOf
               && var e := edges[edgeOf[ports[k].id]];
                  |e.targets| == 1 && e.targets[0].nodeId in nodes && IsConcat(nodes[e.targets[0].nodeId]);
      assert out.Some? && out.value == k;
    } else if out.Some? {
      assert !(ports[out.value].id in edgeOf
               && var e := edges[edgeOf[ports[out.value].id]];
                  |e.targets| == 1 && e.targets[0].nodeId in nodes && IsConcat(nodes[e.targets[0].nodeId]));
    }
  }

  /** The loop of `aggregateConcats` on values, from the `i`-th CONCAT of
      the list on, with the CONCATs already merged away and the edges
      between merged pairs so far: the error that stops it, or the nodes
      and edges it leaves with both sets complete. */
  function ConcatsFrom(nodes: map<nat, Node>, edges: map<nat, Edge>, edgeOf: map<nat, nat>, concats: seq<nat>, i: nat,
                       dropped: set<nat>, dropEdges: set<nat>)
    : (r: Result<(map<nat, Node>, map<nat, Edge>, set<nat>, set<nat>)>)
    requires i <= |concats| && (forall k | 0 <= k < |concats| :: concats[k] in nodes)
    requires forall p | p in edgeOf :: edgeOf[p] in edges
    ensures r.Ok? ==> dropped <= r.value.2 && dropEdges <= r.value.3
    ensures r.Ok? ==> r.value.0.Keys == nodes.Keys && r.value.1.Keys == edges.Keys
    ensures r.Ok? ==> forall x | x in r.value.2 && x !in dropped :: x in concats[i..]
    decreases |concats| - i
  {
    if i == |concats| then Ok((nodes, edges, dropped, dropEdges))
    else if concats[i] in dropped then ConcatsFrom(nodes, edges, edgeOf, concats, i + 1, dropped, dropEdges)
    else
      match ConcatStep(nodes, edges, edgeOf, concats[i])
      case Err(msg) => Err(msg)
      case Ok(None) => ConcatsFrom(nodes, edges, edgeOf, concats, i + 1, dropped, dropEdges)
      case Ok(Some((ns, es, eid))) =>
        ConcatsFrom(ns, es, edgeOf, concats, i + 1, dropped + {concats[i]}, dropEdges + {eid})
  }

  /** Every CONCAT of the list that was not merged away has the ports the
      merging gave it, renumbered, and is otherwise as the merging left it. */
  ghost predicate ConcatsRenumbered(merged: map<nat, Node>, nodes: map<nat, Node>, concats: seq<nat>, drop: set<nat>)
  {
    forall x | x in concats && x !in drop ::
      && x in merged && x in nodes && nodes[x] == merged[x].(ports := nodes[x].ports)
      && YosysUtils.Shapes(nodes[x].ports) == YosysUtils.Shapes(merged[x].ports) && Numbered(nodes[x].ports)
  }

  /** Folding SLICEs leaves the renumbered CONCATs as they are. */
  lemma RenumberedSurvives(merged: map<nat, Node>, mid: map<nat, Node>, nodes: map<nat, Node>,
                           concats: seq<nat>, dropped: set<nat>, folded: set<nat>)
    requires RenumberedAt(merged, mid, set x | x in concats && x !in dropped)
    requires forall k | 0 <= k < |concats| :: concats[k] in mid && IsConcat(mid[concats[k]])
    requires nodes.Keys == mid.Keys && forall x | x in nodes && !IsSlice(nodes[x]) :: nodes[x] == mid[x]
    requires forall x | x in mid :: IsSlice(nodes[x]) == IsSlice(mid[x])
    ensures ConcatsRenumbered(merged, nodes, concats, dropped + folded)
  {
    forall x | x in concats && x !in dropped + folded
      ensures x in merged && x in nodes && nodes[x] == merged[x].(ports := nodes[x].ports)
    {
      var k :| 0 <= k < |concats| && concats[k] == x;
      assert x in (set y | y in concats && y !in dropped);
    }
  }

  /** Folding SLICEs keeps the renumbered CONCATs as they were. */
  lemma ConcatsRenumberedKept(merged: map<nat, Node>, mid: map<nat, Node>, nodes: map<nat, Node>,
                              concats: seq<nat>, dropped: set<nat>, folded: set<nat>)
    requires ConcatsRenumbered(merged, mid, concats, dropped + {})
    requires forall k | 0 <= k < |concats| :: concats[k] in mid && IsConcat(mid[concats[k]])
    requires nodes.Keys == mid.Keys && forall x | x in nodes && !IsSlice(nodes[x]) :: nodes[x] == mid[x]
    requires forall x | x in mid :: IsSlice(nodes[x]) == IsSlice(mid[x])
    ensures ConcatsRenumbered(merged, nodes, concats, dropped + folded)
  {
    forall x | x in concats && x !in dropped + folded
      ensures x in merged && x in nodes && nodes[x] == merged[x].(ports := nodes[x].ports)
    {
      var k :| 0 <= k < |concats| && concats[k] == x;
      assert x !in dropped + {};
    }
  }

  /** A CONCAT not merged away before its turn, which then feeds another
      CONCAT through its first output port, is merged away by a pass that
      succeeds. */
  lemma FeedingConcatDropped(nodes: map<nat, Node>, edges: map<nat, Edge>, edgeOf: map<nat, nat>, concats: seq<nat>, i: nat,
                             dropped: set<nat>, dropEdges: set<nat>)
    requires i < |concats| && (forall k | 0 <= k < |concats| :: concats[k] in nodes)
    requires forall p | p in edgeOf :: edgeOf[p] in edges
    requires concats[i] !in dropped && FeedsConcat(nodes, edges, edgeOf, concats[i])
    ensures ConcatsFrom(nodes, edges, edgeOf, concats, i, dropped, dropEdges).Ok? ==>
              concats[i] in ConcatsFrom(nodes, edges, edgeOf, concats, i, dropped, dropEdges).value.2
  {
    ConcatStepMerges(nodes, edges, edgeOf, concats[i]);
  }

  /** The closing loop of `aggregateConcats` on values: from the `i`-th
      CONCAT of the list on, each one not merged away has its ports
      renumbered from 0. */
  function RenumberFrom(nodes: map<nat, Node>, concats: seq<nat>, i: nat, dropped: set<nat>): (r: map<nat, Node>)
    requires i <= |concats| && forall k | 0 <= k < |concats| :: concats[k] in nodes
    ensures r.Keys == nodes.Keys
    decreases |concats| - i
  {
    if i == |concats| then nodes
    else if concats[i] in dropped then RenumberFrom(nodes, concats, i + 1, dropped)
    else
      var x := concats[i];
      RenumberFrom(nodes[x := nodes[x].(ports := YosysUtils.Numbering(nodes[x].ports, 0))], concats, i + 1, dropped)
  }

  /** One round of the renumbering loop: a CONCAT left in place is
      renumbered and the rest of the list follows, one merged away is skipped. */
  lemma RenumberFromStep(a: map<nat, Node>, b: map<nat, Node>, concats: seq<nat>, i: nat, dropped: set<nat>)
    requires i < |concats| && forall k | 0 <= k < |concats| :: concats[k] in a
    requires b == if concats[i] in dropped then a
                  else a[concats[i] := a[concats[i]].(ports := YosysUtils.Numbering(a[concats[i]].ports, 0))]
    ensures b.Keys == a.Keys
    ensures RenumberFrom(a, concats, i, dropped) == RenumberFrom(b, concats, i + 1, dropped)
  {
  }

  /** The CONCATs of a prefix of the list that stay, one more element at a time. */
  lemma PickedStep(concats: seq<nat>, i: nat, dropped: set<nat>, done: set<nat>)
    requires i < |concats| && done == set x | x in concats[..i] && x !in dropped
    ensures (set x | x in concats[..i + 1] && x !in dropped)
            == if concats[i] in dropped then done else done + {concats[i]}
  {
    assert concats[..i + 1] == concats[..i] + [concats[i]];
  }

  /** The CONCAT pass touches no SLICE, so every SLICE keeps its two ports. */
  lemma SlicesWholeKept(a: map<nat, Node>, b: map<nat, Node>, merged: set<nat>)
    requires SlicesWholeIn(a, merged) && b.Keys == a.Keys
    requires forall nid | nid in b && !IsConcat(b[nid]) :: b[nid] == a[nid]
    ensures SlicesWholeIn(b, merged)
  {
  }

  /** What the SLICE pass works on: the dictionaries of the nodes and of
      the edges, and the SLICEs folded into another so far. */
  datatype SliceState = SliceState(nodes: map<nat, Node>, edges: map<nat, Edge>, merged: set<nat>)

  /** Every SLICE not yet folded into another has at least two ports. */
  predicate SlicesWholeIn(nodes: map<nat, Node>, merged: set<nat>)
  {
    forall nid | nid in nodes && IsSlice(nodes[nid]) && nid !in merged :: |nodes[nid].ports| >= 2
  }

  /** `t` is `s` after some folds: the same ids and kinds, more SLICEs
      folded, each newly folded one a SLICE left with no port, and the nodes
      that are no SLICE, the SLICEs folded before and the targets of every
      edge as they were. */
  predicate FoldedFrom(s: SliceState, t: SliceState)
  {
    && t.nodes.Keys == s.nodes.Keys && t.edges.Keys == s.edges.Keys && s.merged <= t.merged
    && (forall x | x in s.nodes :: IsSlice(t.nodes[x]) == IsSlice(s.nodes[x]))
    && (forall x | x in s.nodes && (!IsSlice(s.nodes[x]) || x in s.merged) :: t.nodes[x] == s.nodes[x])
    && (forall x | x in t.merged && x !in s.merged :: x in s.nodes && IsSlice(s.nodes[x]) && t.nodes[x].ports == [])
    && (forall e | e in s.edges :: t.edges[e].targets == s.edges[e].targets)
  }

  lemma FoldedFromTrans(a: SliceState, b: SliceState, c: SliceState)
    requires FoldedFrom(a, b) && FoldedFrom(b, c)
    ensures FoldedFrom(a, c)
  {
  }

  /** One round of the loop of `aggregateEdgeTargets` on values, with the
      SLICEs an earlier edge folded left alone: the first whole SLICE met is
      the one the others are folded into; a later whole SLICE other than it
      gives it its output port, whose edge then starts from it, keeps no
      port and counts as folded. The first SLICE met again is left alone,
      where the source folds it into itself (see `SelfSliceFoldAsWritten`).
      A target off the dictionary fails, and so
      does a SLICE with fewer than two ports or whose output has no edge
      with a source. */
  function TargetFold(s: SliceState, edgeOf: map<nat, nat>, initial: Option<nat>, nodeId: nat)
    : (r: Result<(SliceState, Option<nat>)>)
    requires initial.Some? ==> Whole(initial.value, s.nodes, s.merged)
    ensures r.Ok? ==> FoldedFrom(s, r.value.0)
    ensures r.Ok? && r.value.1.Some? ==> Whole(r.value.1.value, r.value.0.nodes, r.value.0.merged)
    ensures r.Ok? && initial.Some? ==> r.value.1 == initial
    ensures r.Ok? && r.value.1.None? ==> r.value.0 == s
    ensures SlicesWholeIn(s.nodes, s.merged) ==>
              && (r.Ok? ==> SlicesWholeIn(r.value.0.nodes, r.value.0.merged))
              && (r.Err? ==> r.msg != MissingPort)
  {
    if nodeId !in s.nodes then Err(MissingNode)
    else if !Whole(nodeId, s.nodes, s.merged) then Ok((s, initial))
    else if initial.None? then Ok((s, Some(nodeId)))
    else if nodeId == initial.value then Ok((s, initial))
    else if |s.nodes[nodeId].ports| < 2 then Err(MissingPort)
    else
      var out := s.nodes[nodeId].ports[1].id;
      if !HasSource(s.edges, edgeOf, out) then Err(MissingSource)
      else
        AbsorbedWhole(s.nodes, initial.value, nodeId, s.merged);
        Ok((SliceState(Absorbed(s.nodes, initial.value, nodeId), Resourced(s.edges, edgeOf[out], initial.value),
                       s.merged + {nodeId}), initial))
  }

  /** The loop of `aggregateEdgeTargets` on values, from the `i`-th target
      on: the state after the folds and the SLICE the others went into. */
  function TargetsFold(s: SliceState, edgeOf: map<nat, nat>, ts: seq<Endpoint>, i: nat, initial: Option<nat>)
    : (r: Result<(SliceState, Option<nat>)>)
    requires i <= |ts| && (initial.Some? ==> Whole(initial.value, s.nodes, s.merged))
    ensures r.Ok? ==> FoldedFrom(s, r.value.0)
    ensures r.Ok? && r.value.1.Some? ==> Whole(r.value.1.value, r.value.0.nodes, r.value.0.merged)
    ensures r.Ok? && r.value.1.None? ==> initial.None? && r.value.0 == s
    ensures SlicesWholeIn(s.nodes, s.merged) ==>
              && (r.Ok? ==> SlicesWholeIn(r.value.0.nodes, r.value.0.merged))
              && (r.Err? ==> r.msg != MissingPort)
    decreases |ts| - i
  {
    if i == |ts| then Ok((s, initial))
    else
      match TargetFold(s, edgeOf, initial, ts[i].nodeId)
      case Err(msg) => Err(msg)
      case Ok((t, next)) =>
        var r := TargetsFold(t, edgeOf, ts, i + 1, next);
        if r.Ok? then FoldedFromTrans(s, t, r.value.0); r else r
  }

  /** One edge's turn in `aggregateSplits` on values: its targets are
      folded; then the SLICE the others went into, if any, is renumbered
      from 0 and the edge keeps only its targets on it and on nodes that
      are no SLICE, failing on a target off the dictionary. */
  function EdgeFold(s: SliceState, edgeOf: map<nat, nat>, eid: nat): (r: Result<SliceState>)
    requires eid in s.edges
    ensures r.Ok? ==> r.value.nodes.Keys == s.nodes.Keys && r.value.edges.Keys == s.edges.Keys
    ensures r.Ok? ==> s.merged <= r.value.merged
    ensures r.Ok? ==> forall x | x in s.nodes :: IsSlice(r.value.nodes[x]) == IsSlice(s.nodes[x])
    ensures r.Ok? ==> forall e | e in s.edges && e != eid :: r.value.edges[e].targets == s.edges[e].targets
  {
    match TargetsFold(s, edgeOf, s.edges[eid].targets, 0, None)
    case Err(msg) => Err(msg)
    case Ok((t, first)) => EdgeClose(t, eid, first)
  }

  /** The tail of an edge's turn on values: the SLICE the others went into,
      if any, is renumbered from 0 and the edge keeps only its targets on it
      and on nodes that are no SLICE. */
  function EdgeClose(t: SliceState, eid: nat, first: Option<nat>): (r: Result<SliceState>)
    requires eid in t.edges && (first.Some? ==> first.value in t.nodes)
    ensures r.Ok? ==> r.value.nodes.Keys == t.nodes.Keys && r.value.edges.Keys == t.edges.Keys
    ensures r.Ok? ==> r.value.merged == t.merged
    ensures r.Ok? ==> forall x | x in t.nodes :: IsSlice(r.value.nodes[x]) == IsSlice(t.nodes[x])
    ensures r.Ok? ==> forall e | e in t.edges && e != eid :: r.value.edges[e] == t.edges[e]
  {
    if first.None? then Ok(t)
    else
      var f := first.value;
      var ns := t.nodes[f := t.nodes[f].(ports := YosysUtils.Numbering(t.nodes[f].ports, 0))];
      var ts := t.edges[eid].targets;
      if !AllIn(ts, ns) then Err(MissingNode)
      else Ok(SliceState(ns, t.edges[eid := t.edges[eid].(targets := Kept(ts, ns, f))], t.merged))
  }

  /** The loop of `aggregateEdgeTargets` returns the first whole SLICE
      among the targets, as they stood before the loop, and folds away
      exactly the other whole ones among them. */
  lemma {:induction false} TargetsFoldFirst(s: SliceState, edgeOf: map<nat, nat>, ts: seq<Endpoint>, i: nat,
                                            initial: Option<nat>, nodes0: map<nat, Node>, merged0: set<nat>)
    requires i <= |ts| && (initial.Some? ==> Whole(initial.value, s.nodes, s.merged))
    requires s.nodes.Keys == nodes0.Keys && forall x | x in nodes0 :: IsSlice(s.nodes[x]) == IsSlice(nodes0[x])
    requires initial == FirstWhole(ts[..i], nodes0, merged0)
    requires s.merged == merged0 + FoldedAway(ts[..i], nodes0, merged0)
    ensures TargetsFold(s, edgeOf, ts, i, initial).Ok? ==>
              var t := TargetsFold(s, edgeOf, ts, i, initial).value;
              t.1 == FirstWhole(ts, nodes0, merged0) && t.0.merged == merged0 + FoldedAway(ts, nodes0, merged0)
    decreases |ts| - i
  {
    if i == |ts| {
      assert ts[..i] == ts;
    } else {
      var step := TargetFold(s, edgeOf, initial, ts[i].nodeId);
      if step.Ok? {
        var (t, next) := step.value;
        FoldedStep(ts, i, nodes0, merged0, s.nodes, s.merged, next, t.merged);
        TargetsFoldFirst(t, edgeOf, ts, i + 1, next, nodes0, merged0);
      }
    }
  }

  /** An edge's turn folds away exactly the whole SLICEs among its targets
      but the first; with none of them nothing changes; otherwise every
      target is on a node of the dictionary and the edge keeps those on the
      first whole SLICE and on nodes that are no SLICE. Afterwards no two
      of its targets are on two different whole SLICEs, and every target
      it lost is on a folded SLICE. */
  lemma EdgeFoldSettles(s: SliceState, edgeOf: map<nat, nat>, eid: nat)
    requires eid in s.edges
    ensures EdgeFold(s, edgeOf, eid).Ok? ==>
              var ts := s.edges[eid].targets;
              var t := EdgeFold(s, edgeOf, eid).value;
              var first := FirstWhole(ts, s.nodes, s.merged);
              && t.merged == s.merged + FoldedAway(ts, s.nodes, s.merged)
              && (first.None? ==> t == s)
              && (first.Some? ==> AllIn(ts, t.nodes) && t.edges[eid].targets == Kept(ts, t.nodes, first.value))
              && OneWhole(t.edges[eid].targets, t.nodes, t.merged)
              && DroppedFolded(ts, t.edges[eid].targets, t.merged)
  {
    var ts := s.edges[eid].targets;
    var folded := TargetsFold(s, edgeOf, ts, 0, None);
    if folded.Ok? {
      var (t, first) := folded.value;
      assert ts[..0] == [];
      assert FoldedAway([], s.nodes, s.merged) == {};
      TargetsFoldFirst(s, edgeOf, ts, 0, None, s.nodes, s.merged);
      CloseSettles(s, t, eid, first);
    }
  }

  /** The tail of an edge's turn, once its targets are folded: the edge is
      left with no two targets on two different whole SLICEs and loses only
      targets on folded SLICEs. */
  lemma CloseSettles(s: SliceState, t: SliceState, eid: nat, first: Option<nat>)
    requires eid in s.edges && FoldedFrom(s, t)
    requires first == FirstWhole(s.edges[eid].targets, s.nodes, s.merged)
    requires t.merged == s.merged + FoldedAway(s.edges[eid].targets, s.nodes, s.merged)
    requires first.None? ==> t == s
    requires first.Some? ==> first.value in t.nodes
    ensures EdgeClose(t, eid, first).Ok? ==>
              var c := EdgeClose(t, eid, first).value;
              && OneWhole(c.edges[eid].targets, c.nodes, c.merged)
              && DroppedFolded(s.edges[eid].targets, c.edges[eid].targets, c.merged)
  {
    var ts := s.edges[eid].targets;
    if first.None? {
      NoneWhole(ts, s.nodes, s.merged);
    } else {
      var c := EdgeClose(t, eid, first);
      if c.Ok? {
        KeptOneWhole(ts, c.value.nodes, t.merged, first.value);
        KindsKept(s.nodes, c.value.nodes);
        KeptDropsFolded(ts, s.nodes, s.merged, c.value.nodes, first.value);
      }
    }
  }

  /** `aggregateSplits` on values, from the `i`-th edge of the list on. */
  function SlicesFrom(s: SliceState, edgeOf: map<nat, nat>, edgeList: seq<nat>, i: nat): (r: Result<SliceState>)
    requires i <= |edgeList| && forall k | 0 <= k < |edgeList| :: edgeList[k] in s.edges
    ensures r.Ok? ==> r.value.nodes.Keys == s.nodes.Keys && r.value.edges.Keys == s.edges.Keys
    ensures r.Ok? ==> s.merged <= r.value.merged
    decreases |edgeList| - i
  {
    if i == |edgeList| then Ok(s)
    else
      match EdgeFold(s, edgeOf, edgeList[i])
      case Err(msg) => Err(msg)
      case Ok(t) => SlicesFrom(t, edgeOf, edgeList, i + 1)
  }

  /** From the `i`-th edge of the list on, `aggregateSplits` leaves every
      edge of the list with no two targets on two different whole SLICEs,
      and every target an edge lost, since the state `s0`, on a folded
      SLICE. */
  lemma {:induction false} SlicesFromSettle(s0: SliceState, s: SliceState, edgeOf: map<nat, nat>, edgeList: seq<nat>, i: nat)
    requires i <= |edgeList| && (forall k | 0 <= k < |edgeList| :: edgeList[k] in s.edges)
    requires s.edges.Keys == s0.edges.Keys && s0.merged <= s.merged
    requires forall k | 0 <= k < i :: OneWhole(s.edges[edgeList[k]].targets, s.nodes, s.merged)
    requires forall e | e in s.edges :: DroppedFolded(s0.edges[e].targets, s.edges[e].targets, s.merged)
    ensures SlicesFrom(s, edgeOf, edgeList, i).Ok? ==>
              var t := SlicesFrom(s, edgeOf, edgeList, i).value;
              && (forall k | 0 <= k < |edgeList| :: OneWhole(t.edges[edgeList[k]].targets, t.nodes, t.merged))
              && (forall e | e in t.edges :: DroppedFolded(s0.edges[e].targets, t.edges[e].targets, t.merged))
    decreases |edgeList| - i
  {
    if i < |edgeList| {
      var step := EdgeFold(s, edgeOf, edgeList[i]);
      if step.Ok? {
        var t := step.value;
        EdgeFoldSettles(s, edgeOf, edgeList[i]);
        SplitsStep(s0.edges, s.edges, t.edges, s.nodes, t.nodes, s.merged, t.merged, edgeList, i);
        SlicesFromSettle(s0, t, edgeOf, edgeList, i + 1);
      }
    }
  }

  /** The objects `aggregateConcantsAndSplits` works on, by id: the node and
      its children (`nodeIdToNodeDict`), the edges, the port-to-edge
      dictionary, and the lists `node.children` and `node.edges`, which the
      pass filters. The source shares these objects between the lists and
      the dictionaries; here each lives once, under its id. `merged` holds
      the slices already folded into another one. */
  class Folder {
    var nodes: map<nat, Node>
    var edges: map<nat, Edge>
    var children: seq<nat>
    var edgeList: seq<nat>
    var merged: set<nat>
    const parentId: nat
    const edgeOf: map<nat, nat>
    ghost const orig: map<nat, Node>
    ghost const edgeIds: set<nat>
    ghost const bound: int
    ghost const bounded: bool

    ghost predicate Valid()
      reads this
    {
      && NodesEvolved(orig, nodes, parentId)
      && EdgesKept(edgeIds, edges)
      && (forall k | 0 <= k < |children| :: children[k] in nodes)
      && (forall k | 0 <= k < |edgeList| :: edgeList[k] in edges)
      && (forall p | p in edgeOf :: edgeOf[p] in edges)
      && merged <= nodes.Keys
      && (bounded ==> Bounded(nodes, parentId, bound))
    }

    /** Every slice not yet folded into another has at least two ports. */
    predicate SlicesWhole()
      reads this
    {
      SlicesWholeIn(nodes, merged)
    }

    constructor (parentId: nat, nodes: map<nat, Node>, edges: map<nat, Edge>, children: seq<nat>, edgeList: seq<nat>,
                 edgeOf: map<nat, nat>, ghost bound: int)
      requires parentId in nodes && forall nid | nid in nodes :: nodes[nid].id == nid
      requires forall eid | eid in edges :: edges[eid].id == eid
      requires forall k | 0 <= k < |children| :: children[k] in nodes
      requires forall k | 0 <= k < |edgeList| :: edgeList[k] in edges
      requires forall p | p in edgeOf :: edgeOf[p] in edges
      ensures Valid()
      ensures this.nodes == nodes && this.edges == edges && this.children == children && this.edgeList == edgeList
      ensures this.parentId == parentId && this.edgeOf == edgeOf && merged == {} && orig == nodes
      ensures this.bound == bound && bounded == Bounded(nodes, parentId, bound) && edgeIds == edges.Keys
    {
      this.nodes := nodes;
      this.edges := edges;
      this.children := children;
      this.edgeList := edgeList;
      this.merged := {};
      this.parentId := parentId;
      this.edgeOf := edgeOf;
      this.orig := nodes;
      this.edgeIds := edges.Keys;
      this.bound := bound;
      this.bounded := Bounded(nodes, parentId, bound);
    }

    /** `updatePortIndices(node.ports, 0)` on one CONCAT or SLICE. */
    method RenumberNode(nid: nat)
      requires Valid() && nid in nodes && (IsConcat(nodes[nid]) || IsSlice(nodes[nid]))
      modifies this
      ensures Valid()
      ensures children == old(children) && edgeList == old(edgeList) && edges == old(edges) && merged == old(merged)
      ensures nodes == old(nodes)[nid := old(nodes[nid]).(ports := nodes[nid].ports)]
      ensures nodes[nid].ports == YosysUtils.Numbering(old(nodes[nid].ports), 0)
      ensures YosysUtils.Shapes(nodes[nid].ports) == YosysUtils.Shapes(old(nodes[nid].ports)) && Numbered(nodes[nid].ports)
    {
      var ports := Renumbered(nodes[nid].ports);
      if bounded {
        ShapesKeepWithin(nodes[nid].ports, ports, nodes[nid].maxId.value);
        Regrown(nodes[nid], ports, nodes[nid].maxId.value);
      }
      nodes := nodes[nid := nodes[nid].(ports := ports)];
    }

    /** `aggregateTwoConcats` with the guard it evidently means: when the
        right CONCAT no longer has the target port the merge fails, instead
        of losing the first input. Otherwise the edge of every input port
        is pointed at the right CONCAT, the inputs take the target port's
        place in order, and the right CONCAT's `maxId` is raised to the left
        one's. Nothing changes when it fails. */
    method AggregateTwoConcats(left: nat, inputs: seq<Port>, right: nat, targetPortId: nat) returns (r: Result<()>)
      requires Valid() && left in nodes && right in nodes && IsConcat(nodes[left]) && IsConcat(nodes[right])
      requires forall p | p in inputs :: p in nodes[left].ports
      modifies this
      ensures Valid()
      ensures children == old(children) && edgeList == old(edgeList) && merged == old(merged)
      ensures FindPort(old(nodes[right].ports), targetPortId).None? ==> r == Err(MissingTargetPort)
      ensures r.Ok? <==> FindPort(old(nodes[right].ports), targetPortId).Some? && AllRetargetable(old(edges), edgeOf, inputs)
      ensures r.Ok? ==>
                var ports := old(nodes[right].ports);
                var idx := FindPort(ports, targetPortId).value;
                var maxId := if inputs == [] then old(nodes[right].maxId) else Raised(old(nodes[right].maxId), old(nodes[left].maxId));
                nodes == old(nodes)[right := old(nodes[right]).(ports := Placed(ports, idx, inputs), maxId := maxId)]
      ensures r.Ok? ==> edges == RetargetAll(old(edges), edgeOf, inputs, right)
      ensures r.Err? ==> nodes == old(nodes) && edges == old(edges)
      ensures r.Err? ==> r.msg in {MissingTargetPort, MissingEdge, "PortId was not found"}
    {
      var idx := FindPort(nodes[right].ports, targetPortId);
      if idx.None? {
        return Err(MissingTargetPort);
      }
      var retargeted := RetargetInputs(edges, edgeOf, inputs, right);
      if retargeted.Err? {
        return Err(retargeted.msg);
      }
      var placed := PlaceInputs(nodes[right].ports, idx.value, inputs);
      var maxId := if inputs == [] then nodes[right].maxId else Raised(nodes[right].maxId, nodes[left].maxId);
      if bounded {
        ConcatKeepsBound(nodes, parentId, bound, left, right, inputs, idx.value, maxId);
      }
      ReportedEvolved(orig, nodes, parentId, right, placed, maxId);
      WiringKept(edgeIds, edges, retargeted.value);
      nodes := nodes[right := nodes[right].(ports := placed, maxId := maxId)];
      edges := retargeted.value;
      r := Ok(());
    }

    /** `aggregateTwoSplits`: the first slice takes the other slice's second
        port (its output) and, when larger, its `maxId`; the edge on that
        port starts from the first slice; the other slice is left with no
        port. A slice with fewer than two ports fails: the source reads the
        id of a missing port. Nothing changes when it fails. */
    method AggregateTwoSplits(initial: nat, oldId: nat) returns (r: Result<()>)
      requires Valid() && initial in nodes && oldId in nodes && IsSlice(nodes[initial]) && IsSlice(nodes[oldId])
      modifies this
      ensures Valid()
      ensures children == old(children) && edgeList == old(edgeList) && merged == old(merged)
      ensures |old(nodes[oldId].ports)| < 2 ==> r == Err(MissingPort)
      ensures |old(nodes[oldId].ports)| >= 2 && r.Err? ==> r.msg == MissingSource
      ensures r.Ok? <==> |old(nodes[oldId].ports)| >= 2 && HasSource(old(edges), edgeOf, old(nodes[oldId].ports[1].id))
      ensures r.Ok? ==> nodes == Absorbed(old(nodes), initial, oldId)
      ensures r.Ok? ==> edges == Resourced(old(edges), edgeOf[old(nodes[oldId].ports[1].id)], initial)
      ensures forall eid | eid in edges :: edges[eid].targets == old(edges[eid].targets)
      ensures r.Err? ==> nodes == old(nodes) && edges == old(edges)
      ensures r.Err? ==> r.msg in {MissingPort, MissingSource}
    {
      if |nodes[oldId].ports| < 2 {
        return Err(MissingPort);
      }
      var port := nodes[oldId].ports[1];
      if !HasSource(edges, edgeOf, port.id) {
        return Err(MissingSource);
      }
      if bounded {
        SplitKeepsBound(nodes, parentId, bound, initial, oldId);
      }
      AbsorbedEvolved(orig, nodes, parentId, initial, oldId);
      ResourcedKept(edgeIds, edges, edgeOf[port.id], initial);
      nodes := Absorbed(nodes, initial, oldId);
      edges := Resourced(edges, edgeOf[port.id], initial);
      r := Ok(());
    }

    /** The closing loop of `aggregateConcats`: every listed CONCAT that was
        not merged away has its ports renumbered from 0. */
    method RenumberConcats(concats: seq<nat>, dropped: set<nat>)
      requires Valid() && forall k | 0 <= k < |concats| :: concats[k] in nodes && IsConcat(nodes[concats[k]])
      modifies this
      ensures Valid()
      ensures children == old(children) && edgeList == old(edgeList) && edges == old(edges) && merged == old(merged)
      ensures RenumberedAt(old(nodes), nodes, set x | x in concats && x !in dropped)
      ensures nodes == RenumberFrom(old(nodes), concats, 0, dropped)
    {
      ghost var done: set<nat> := {};
      for i := 0 to |concats|
        invariant Valid()
        invariant children == old(children) && edgeList == old(edgeList) && edges == old(edges) && merged == old(merged)
        invariant done == set x | x in concats[..i] && x !in dropped
        invariant RenumberedAt(old(nodes), nodes, done)
        invariant RenumberFrom(nodes, concats, i, dropped) == RenumberFrom(old(nodes), concats, 0, dropped)
      {
        PickedStep(concats, i, dropped, done);
        if concats[i] !in dropped {
          assert IsConcat(orig[concats[i]]);
          ghost var before := nodes;
          RenumberNode(concats[i]);
          RenumberFromStep(before, nodes, concats, i, dropped);
          RenumberedStep(old(nodes), before, nodes, done, concats[i]);
          done := done + {concats[i]};
        } else {
          RenumberFromStep(nodes, nodes, concats, i, dropped);
        }
      }
      assert concats[..|concats|] == concats;
    }

    /** One round of the loop of `aggregateConcats` for the CONCAT `left`:
        when its first output port's edge has a single target and that
        target is on a CONCAT, the two are merged and the id of the edge
        between them is returned; a port without an edge, or an edge with
        several targets or a target on another kind of node, merges
        nothing. Only CONCATs change. */
    method MergeIntoNext(left: nat) returns (r: Result<Option<nat>>)
      requires Valid() && left in nodes && IsConcat(nodes[left])
      modifies this
      ensures Valid()
      ensures children == old(children) && edgeList == old(edgeList) && merged == old(merged)
      ensures forall nid | nid in nodes && !IsConcat(nodes[nid]) :: nodes[nid] == old(nodes[nid])
      ensures r.Ok? && r.value.Some? ==> r.value.value in edges
      ensures r.Ok? && r.value.None? ==> nodes == old(nodes) && edges == old(edges)
      ensures r.Ok? <==> ConcatStep(old(nodes), old(edges), edgeOf, left).Ok?
      ensures r.Ok? ==>
                var s := ConcatStep(old(nodes), old(edges), edgeOf, left).value;
                && (r.value.Some? <==> s.Some?)
                && (s.Some? ==> nodes == s.value.0 && edges == s.value.1 && r.value.value == s.value.2)
      ensures r.Err? ==> r.msg in {"Concat child has no target", "Target node of target port is undefined",
                                   MissingTargetPort, MissingEdge, "PortId was not found"}
    {
      var target := GetChildTargetPortId(nodes[left]);
      if target.Err? {
        return Err(target.msg);
      }
      if target.value !in edgeOf {
        return Ok(None);
      }
      var edge := edges[edgeOf[target.value]];
      if |edge.targets| != 1 {
        return Ok(None);
      }
      var t := edge.targets[0];
      if t.nodeId !in nodes {
        return Err("Target node of target port is undefined");
      }
      if !IsConcat(nodes[t.nodeId]) {
        return Ok(None);
      }
      r := MergeTwo(left, t, edge.id);
    }

    /** The merging part of one round of `aggregateConcats`: `left` is
        merged into the CONCAT holding the target `t` of the edge `eid`, as
        `ConcatMerge` says. */
    method MergeTwo(left: nat, t: Endpoint, eid: nat) returns (r: Result<Option<nat>>)
      requires Valid() && left in nodes && IsConcat(nodes[left]) && t.nodeId in nodes && IsConcat(nodes[t.nodeId])
      requires eid in edges
      modifies this
      ensures Valid()
      ensures children == old(children) && edgeList == old(edgeList) && merged == old(merged)
      ensures forall nid | nid in nodes && !IsConcat(nodes[nid]) :: nodes[nid] == old(nodes[nid])
      ensures r.Ok? <==> ConcatMerge(old(nodes), old(edges), edgeOf, left, t, eid).Ok?
      ensures r.Ok? ==>
                var s := ConcatMerge(old(nodes), old(edges), edgeOf, left, t, eid).value.value;
                r == Ok(Some(eid)) && nodes == s.0 && edges == s.1
      ensures r.Err? ==> nodes == old(nodes) && edges == old(edges)
      ensures r.Err? ==> r.msg in {MissingTargetPort, MissingEdge, "PortId was not found"}
    {
      var inputs := GetChildInputPorts(nodes[left].ports);
      InputPortsSelect(nodes[left].ports);
      var step := AggregateTwoConcats(left, inputs, t.nodeId, t.portId);
      if step.Err? {
        return Err(step.msg);
      }
      r := Ok(Some(eid));
    }

    /** `aggregateConcats`: every CONCAT of the list, unless already merged
        away, whose first output port's edge has a single target on another
        CONCAT is merged into that CONCAT; the merged CONCATs and the edges
        between the pairs leave the lists, and the surviving CONCATs are
        renumbered. Only CONCATs change. */
    method AggregateConcats(concats: seq<nat>) returns (r: Result<()>, ghost dropped: set<nat>)
      requires Valid() && forall k | 0 <= k < |concats| :: concats[k] in nodes && IsConcat(nodes[concats[k]])
      modifies this
      ensures Valid() && merged == old(merged)
      ensures forall nid | nid in nodes && !IsConcat(nodes[nid]) :: nodes[nid] == old(nodes[nid])
      ensures r.Ok? ==> children == Without(old(children), dropped)
      ensures r.Ok? ==> forall x | x in edgeList :: x in old(edgeList)
      ensures forall x | x in dropped :: x in concats
      ensures r.Err? ==> r.msg in {"Concat child has no target", "Target node of target port is undefined",
                                   MissingTargetPort, MissingEdge, "PortId was not found"}
      ensures r.Ok? <==> ConcatsFrom(old(nodes), old(edges), edgeOf, concats, 0, {}, {}).Ok?
      ensures r.Ok? ==>
                var s := ConcatsFrom(old(nodes), old(edges), edgeOf, concats, 0, {}, {}).value;
                && dropped == s.2 && edges == s.1 && edgeList == Without(old(edgeList), s.3)
                && RenumberedAt(s.0, nodes, set x | x in concats && x !in dropped)
                && nodes == RenumberFrom(s.0, concats, 0, s.2)
    {
      var childrenToDelete, edgesToDelete;
      r, childrenToDelete, edgesToDelete := MergeConcats(concats);
      dropped := childrenToDelete;
      if r.Err? {
        return;
      }
      WithoutInside(children, childrenToDelete, nodes);
      WithoutInside(edgeList, edgesToDelete, edges);
      children := Without(children, childrenToDelete);
      edgeList := Without(edgeList, edgesToDelete);
      RenumberConcats(concats, childrenToDelete);
    }

    /** The loop of `aggregateConcats`: each CONCAT of the list not merged
        away yet gets its round, as `ConcatsFrom` replays them; returns the
        CONCATs merged away and the edges between merged pairs. */
    method MergeConcats(concats: seq<nat>) returns (r: Result<()>, dropped: set<nat>, dropEdges: set<nat>)
      requires Valid() && forall k | 0 <= k < |concats| :: concats[k] in nodes && IsConcat(nodes[concats[k]])
      modifies this
      ensures Valid() && merged == old(merged) && children == old(children) && edgeList == old(edgeList)
      ensures forall nid | nid in nodes && !IsConcat(nodes[nid]) :: nodes[nid] == old(nodes[nid])
      ensures forall x | x in dropped :: x in concats
      ensures r.Err? ==> r.msg in {"Concat child has no target", "Target node of target port is undefined",
                                   MissingTargetPort, MissingEdge, "PortId was not found"}
      ensures r.Ok? <==> ConcatsFrom(old(nodes), old(edges), edgeOf, concats, 0, {}, {}).Ok?
      ensures r.Ok? ==> ConcatsFrom(old(nodes), old(edges), edgeOf, concats, 0, {}, {}).value == (nodes, edges, dropped, dropEdges)
    {
      dropEdges := {};
      dropped := {};
      ghost var spec := ConcatsFrom(nodes, edges, edgeOf, concats, 0, {}, {});
      for i := 0 to |concats|
        invariant Valid() && merged == old(merged)
        invariant children == old(children) && edgeList == old(edgeList)
        invariant forall nid | nid in nodes && !IsConcat(nodes[nid]) :: nodes[nid] == old(nodes[nid])
        invariant forall x | x in dropped :: x in concats
        invariant ConcatsFrom(nodes, edges, edgeOf, concats, i, dropped, dropEdges) == spec
      {
        var left := concats[i];
        if left !in dropped {
          assert IsConcat(orig[left]);
          var step := MergeIntoNext(left);
          if step.Err? {
            return Err(step.msg), dropped, dropEdges;
          }
          if step.value.Some? {
            dropEdges := dropEdges + {step.value.value};
            dropped := dropped + {left};
          }
        }
      }
      r := Ok(());
    }

    /** One round of the loop of `aggregateEdgeTargets`, with the slices an
        earlier edge already folded left alone: the first whole slice met
        becomes the one the others are folded into; a later whole slice
        other than it is folded into it and counts as folded. Met again, the
        first slice is left alone, where the source folds it into itself. */
    method FoldTarget(initial: Option<nat>, nodeId: nat) returns (r: Result<Option<nat>>)
      requires Valid()
      requires initial.Some? ==> Whole(initial.value, nodes, merged)
      modifies this
      ensures Valid() && edgeList == old(edgeList) && children == old(children)
      ensures FoldedFrom(SliceState(old(nodes), old(edges), old(merged)), SliceState(nodes, edges, merged))
      ensures old(SlicesWhole()) ==> SlicesWhole()
      ensures r.Err? ==> nodes == old(nodes) && edges == old(edges) && merged == old(merged)
      ensures r.Err? ==> r.msg in {MissingNode, MissingPort, MissingSource}
      ensures var t := TargetFold(SliceState(old(nodes), old(edges), old(merged)), edgeOf, initial, nodeId);
              && (r.Ok? <==> t.Ok?) && (r.Err? ==> r.msg == t.msg)
              && (r.Ok? ==> r.value == t.value.1 && nodes == t.value.0.nodes && edges == t.value.0.edges
                            && merged == t.value.0.merged)
    {
      if nodeId !in nodes {
        return Err(MissingNode);
      }
      if !Whole(nodeId, nodes, merged) {
        return Ok(initial);
      }
      if initial.None? {
        return Ok(Some(nodeId));
      }
      if nodeId == initial.value {
        return Ok(initial);
      }
      var step := FoldInto(initial.value, nodeId);
      if step.Err? {
        return Err(step.msg);
      }
      r := Ok(initial);
    }

    /** The fold case of `FoldTarget`: the whole slice `nodeId` is folded
        into the whole slice `into` and counts as folded. */
    method FoldInto(into: nat, nodeId: nat) returns (r: Result<()>)
      requires Valid() && Whole(into, nodes, merged) && Whole(nodeId, nodes, merged) && into != nodeId
      modifies this
      ensures Valid() && edgeList == old(edgeList) && children == old(children)
      ensures r.Ok? ==> merged == old(merged) + {nodeId} && nodes[nodeId].ports == [] && Whole(into, nodes, merged)
      ensures r.Err? ==> merged == old(merged) && nodes == old(nodes) && edges == old(edges)
      ensures nodes.Keys == old(nodes).Keys && IsSlice(nodes[nodeId])
      ensures forall x | x in old(merged) :: nodes[x] == old(nodes[x])
      ensures forall nid | nid in nodes && !IsSlice(nodes[nid]) :: nodes[nid] == old(nodes[nid])
      ensures forall e | e in edges :: edges[e].targets == old(edges[e].targets)
      ensures old(SlicesWhole()) ==> SlicesWhole()
      ensures old(SlicesWhole()) && r.Err? ==> r.msg != MissingPort
      ensures r.Err? ==> r.msg in {MissingPort, MissingSource}
      ensures r.Ok? <==> |old(nodes[nodeId].ports)| >= 2 && HasSource(old(edges), edgeOf, old(nodes[nodeId].ports[1].id))
      ensures r.Ok? ==>
                && nodes == Absorbed(old(nodes), into, nodeId)
                && edges == Resourced(old(edges), edgeOf[old(nodes[nodeId].ports[1].id)], into)
      ensures r.Err? ==> r.msg == if |old(nodes[nodeId].ports)| < 2 then MissingPort else MissingSource
    {
      assert |nodes[nodeId].ports| >= 2 || !old(SlicesWhole());
      r := AggregateTwoSplits(into, nodeId);
      if r.Ok? {
        AbsorbedWhole(old(nodes), into, nodeId, merged);
        merged := merged + {nodeId};
      }
    }

    /** The loop of `aggregateEdgeTargets`, with the slices an earlier edge
        already folded left alone: each target gets its round, as
        `TargetsFold` replays them. Whatever happens, only slices change,
        and a slice newly counted as folded is left with no port. */
    method FoldTargets(targets: seq<Endpoint>) returns (r: Result<Option<nat>>)
      requires Valid()
      modifies this
      ensures Valid() && edgeList == old(edgeList) && children == old(children)
      ensures FoldedFrom(SliceState(old(nodes), old(edges), old(merged)), SliceState(nodes, edges, merged))
      ensures old(SlicesWhole()) ==> SlicesWhole()
      ensures r.Err? ==> r.msg in {MissingNode, MissingPort, MissingSource}
      ensures var t := TargetsFold(SliceState(old(nodes), old(edges), old(merged)), edgeOf, targets, 0, None);
              && (r.Ok? <==> t.Ok?) && (r.Err? ==> r.msg == t.msg)
              && (r.Ok? ==> r.value == t.value.1 && nodes == t.value.0.nodes && edges == t.value.0.edges
                            && merged == t.value.0.merged)
    {
      var initial: Option<nat> := None;
      ghost var spec := TargetsFold(SliceState(nodes, edges, merged), edgeOf, targets, 0, None);
      for i := 0 to |targets|
        invariant Valid() && edgeList == old(edgeList) && children == old(children)
        invariant FoldedFrom(SliceState(old(nodes), old(edges), old(merged)), SliceState(nodes, edges, merged))
        invariant old(SlicesWhole()) ==> SlicesWhole()
        invariant initial.Some? ==> Whole(initial.value, nodes, merged)
        invariant TargetsFold(SliceState(nodes, edges, merged), edgeOf, targets, i, initial) == spec
      {
        ghost var before := SliceState(nodes, edges, merged);
        var step := FoldTarget(initial, targets[i].nodeId);
        FoldedFromTrans(SliceState(old(nodes), old(edges), old(merged)), before, SliceState(nodes, edges, merged));
        if step.Err? {
          return Err(step.msg);
        }
        initial := step.value;
      }
      r := Ok(initial);
    }

    /** The tail of `aggregateEdgeTargets`: the slice the others were folded
        into is renumbered and the edge keeps only its targets on it and on
        other kinds of node. Only that slice's port numbering changes. */
    method FinishEdge(eid: nat, initial: nat) returns (r: Result<()>)
      requires Valid() && eid in edges && initial in nodes && IsSlice(nodes[initial])
      modifies this
      ensures Valid() && edgeList == old(edgeList) && children == old(children) && merged == old(merged)
      ensures nodes.Keys == old(nodes.Keys)
      ensures forall nid | nid in nodes && nid != initial :: nodes[nid] == old(nodes[nid])
      ensures |nodes[initial].ports| == |old(nodes[initial].ports)| && IsSlice(nodes[initial])
      ensures edges == old(edges)[eid := edges[eid]]
      ensures r.Ok? <==> AllIn(old(edges[eid].targets), nodes)
      ensures r.Ok? ==> edges[eid].targets == Kept(old(edges[eid].targets), nodes, initial)
      ensures nodes == old(nodes)[initial := old(nodes[initial]).(ports := YosysUtils.Numbering(old(nodes[initial].ports), 0))]
      ensures r.Ok? ==> edges == old(edges)[eid := old(edges[eid]).(targets := Kept(old(edges[eid].targets), nodes, initial))]
      ensures forall nid | nid in nodes && !IsSlice(nodes[nid]) :: nodes[nid] == old(nodes[nid])
      ensures initial !in merged ==> forall x | x in merged :: nodes[x] == old(nodes[x])
      ensures old(SlicesWhole()) ==> SlicesWhole()
      ensures r.Err? ==> r.msg == MissingNode
    {
      RenumberNode(initial);
      ShapesKeepIds(nodes[initial].ports);
      ShapesKeepIds(old(nodes[initial].ports));
      r := FilterTargets(eid, initial);
    }

    /** `aggregateEdgeTargets` with the slices an earlier edge already
        folded left alone: the first slice among the edge's targets that is
        still whole takes the output of every other whole slice among them,
        and those leave the parent's children; then it is renumbered and the
        edge keeps only its targets on it and on other kinds of node. A slice
        listed twice is folded once and never into itself, where the source
        folds the first slice into itself when it is listed again (see
        `SelfSliceFoldAsWritten`). With no whole slice among the targets
        nothing changes. Only slices change, and
        every slice that was whole is still whole or folded. */
    method AggregateEdgeTargets(eid: nat, targets: seq<Endpoint>) returns (r: Result<()>)
      requires Valid() && eid in edges
      modifies this
      ensures Valid() && edgeList == old(edgeList)
      ensures old(merged) <= merged
      ensures forall x | x in merged - old(merged) :: IsSlice(nodes[x]) && nodes[x].ports == []
      ensures forall nid | nid in nodes && !IsSlice(nodes[nid]) :: nodes[nid] == old(nodes[nid])
      ensures r.Ok? ==> children == Without(old(children), merged - old(merged))
      ensures forall e | e in edges && e != eid :: edges[e].targets == old(edges[e].targets)
      ensures old(SlicesWhole()) ==> SlicesWhole()
      ensures old(SlicesWhole()) && r.Err? ==> r.msg != MissingPort
      ensures r.Err? ==> r.msg in {MissingNode, MissingPort, MissingSource}
      ensures targets == old(edges[eid].targets) ==>
                var t := EdgeFold(SliceState(old(nodes), old(edges), old(merged)), edgeOf, eid);
                && (r.Ok? <==> t.Ok?) && (r.Err? ==> r.msg == t.msg)
                && (r.Ok? ==> nodes == t.value.nodes && edges == t.value.edges && merged == t.value.merged)
    {
      var before := merged;
      var folded := FoldTargets(targets);
      if folded.Err? {
        return Err(folded.msg);
      }
      r := CloseEdge(eid, folded.value);
      if r.Err? {
        return;
      }
      WithoutInside(children, merged - before, nodes);
      children := Without(children, merged - before);
    }

    /** The tail of `aggregateEdgeTargets` when a first slice was found:
        it is renumbered and the edge keeps only its targets on it and on
        other kinds of node, which leaves it no target on another whole
        slice. With no first slice nothing changes. */
    method CloseEdge(eid: nat, first: Option<nat>) returns (r: Result<()>)
      requires Valid() && eid in edges && (first.Some? ==> Whole(first.value, nodes, merged))
      modifies this
      ensures Valid() && edgeList == old(edgeList) && children == old(children) && merged == old(merged)
      ensures forall nid | nid in nodes && !IsSlice(nodes[nid]) :: nodes[nid] == old(nodes[nid])
      ensures forall x | x in merged :: nodes[x] == old(nodes[x])
      ensures forall e | e in edges && e != eid :: edges[e] == old(edges[e])
      ensures var c := EdgeClose(SliceState(old(nodes), old(edges), old(merged)), eid, first);
              && (r.Ok? <==> c.Ok?) && (r.Err? ==> r.msg == c.msg)
              && (r.Ok? ==> nodes == c.value.nodes && edges == c.value.edges)
      ensures old(SlicesWhole()) ==> SlicesWhole()
      ensures r.Err? ==> r.msg == MissingNode
    {
      if first.None? {
        return Ok(());
      }
      r := FinishEdge(eid, first.value);
    }

    /** One round of the loop of `aggregateEdgeTargets` as written: the
        first slice met becomes the one the others are folded into, and
        every later slice is folded into it, folded before or not, and the
        first slice itself when it is listed again. */
    method FoldTargetAsWritten(initial: Option<nat>, nodeId: nat) returns (r: Result<Option<nat>>, ghost folded: bool)
      requires Valid()
      requires initial.Some? ==> initial.value in nodes && IsSlice(nodes[initial.value])
      modifies this
      ensures Valid() && edgeList == old(edgeList) && children == old(children) && merged == old(merged)
      ensures forall e | e in edges :: edges[e].targets == old(edges[e].targets)
      ensures r.Ok? && initial.Some? ==> r.value == initial
      ensures r.Ok? && r.value.Some? ==> r.value.value in nodes && IsSlice(nodes[r.value.value])
      ensures initial.None? ==> nodes == old(nodes) && edges == old(edges)
      ensures initial.None? && nodeId in nodes ==> r.Ok?
      ensures initial.None? && nodeId in nodes && IsSlice(nodes[nodeId]) ==> r == Ok(Some(nodeId))
      ensures r.Ok? ==> nodeId in nodes
      ensures (initial.Some? && nodeId in nodes && IsSlice(nodes[nodeId]) && |old(nodes[nodeId].ports)| < 2) ==> r == Err(MissingPort)
      ensures initial.Some? && nodeId in old(nodes) && IsSlice(old(nodes[nodeId])) ==>
                (r.Ok? <==> SliceFoldable(old(nodes[nodeId]), old(edges), edgeOf))
      ensures (r.Ok? && initial.Some? && nodeId in nodes && IsSlice(nodes[nodeId])) ==> nodes[nodeId].ports == []
      ensures r.Ok? ==> forall x | x in nodes && x != nodeId && (initial.None? || x != initial.value) :: nodes[x] == old(nodes[x])
      ensures folded <==> r.Ok? && initial.Some? && nodeId in nodes && IsSlice(nodes[nodeId])
    {
      folded := false;
      if nodeId !in nodes {
        return Err(MissingNode), folded;
      }
      if !IsSlice(nodes[nodeId]) {
        return Ok(initial), folded;
      }
      if initial.None? {
        return Ok(Some(nodeId)), folded;
      }
      var step := AggregateTwoSplits(initial.value, nodeId);
      if step.Err? {
        return Err(step.msg), folded;
      }
      folded := true;
      r := Ok(initial);
    }

    /** The loop of `aggregateEdgeTargets` as written: returns the slice the
        others were folded into, if any, and the slices folded into it. */
    method FoldTargetsAsWritten(targets: seq<Endpoint>) returns (r: Result<Option<nat>>, toDelete: set<nat>)
      requires Valid()
      modifies this
      ensures Valid() && edgeList == old(edgeList) && children == old(children) && merged == old(merged)
      ensures forall e | e in edges :: edges[e].targets == old(edges[e].targets)
      ensures r.Ok? && r.value.Some? ==> r.value.value in nodes && IsSlice(nodes[r.value.value])
      ensures TwoSlicesFirst(targets, old(nodes)) && |old(nodes[targets[1].nodeId].ports)| < 2 ==> r == Err(MissingPort)
      ensures r.Ok? && TwoSlicesFirst(targets, old(nodes)) ==> nodes[targets[1].nodeId].ports == [] && targets[1].nodeId in toDelete
      ensures SameSliceTwice(targets, old(nodes)) && SliceFoldable(old(nodes[targets[0].nodeId]), old(edges), edgeOf) ==> r.Ok?
      ensures r.Ok? && SameSliceTwice(targets, old(nodes)) ==>
                r.value == Some(targets[0].nodeId) && nodes[targets[0].nodeId].ports == [] && targets[0].nodeId in toDelete
    {
      var initial: Option<nat> := None;
      toDelete := {};
      for i := 0 to |targets|
        invariant Valid() && edgeList == old(edgeList) && children == old(children) && merged == old(merged)
        invariant forall e | e in edges :: edges[e].targets == old(edges[e].targets)
        invariant initial.Some? ==> initial.value in nodes && IsSlice(nodes[initial.value])
        invariant i == 0 ==> initial.None?
        invariant TwoSlicesFirst(targets, old(nodes)) && i <= 1 ==> nodes == old(nodes)
        invariant TwoSlicesFirst(targets, old(nodes)) && i >= 1 ==> initial == Some(targets[0].nodeId)
        invariant TwoSlicesFirst(targets, old(nodes)) && i >= 2 ==> nodes[targets[1].nodeId].ports == [] && targets[1].nodeId in toDelete
        invariant TwoSlicesFirst(targets, old(nodes)) && |old(nodes[targets[1].nodeId].ports)| < 2 ==> i <= 1
        invariant SameSliceTwice(targets, old(nodes)) && i <= 1 ==> nodes == old(nodes) && edges == old(edges)
        invariant SameSliceTwice(targets, old(nodes)) && i >= 1 ==> initial == Some(targets[0].nodeId)
        invariant SameSliceTwice(targets, old(nodes)) && i == 2 ==>
                    nodes[targets[0].nodeId].ports == [] && targets[0].nodeId in toDelete
      {
        var step, folded := FoldTargetAsWritten(initial, targets[i].nodeId);
        if step.Err? {
          return Err(step.msg), toDelete;
        }
        if initial.Some? && IsSlice(nodes[targets[i].nodeId]) {
          toDelete := toDelete + {targets[i].nodeId};
        }
        initial := step.value;
      }
      r := Ok(initial);
    }

    /** `aggregateEdgeTargets` as written: every slice among the targets
        after the first is folded into the first, whether or not an earlier
        edge already folded it. When the first two targets are on two
        different slices and the second has fewer than two ports, it fails
        on the missing port; when it succeeds, the second of them is left
        with no port and leaves the parent's children. When the edge's two
        targets are on one slice, that slice is folded into itself: it is
        left with no port and leaves the parent's children, while the edge
        keeps both targets on it. */
    method AggregateEdgeTargetsAsWritten(eid: nat, targets: seq<Endpoint>) returns (r: Result<()>)
      requires Valid() && eid in edges
      modifies this
      ensures Valid() && edgeList == old(edgeList) && merged == old(merged)
      ensures forall e | e in edges && e != eid :: edges[e].targets == old(edges[e].targets)
      ensures r.Ok? ==> forall x | x in children :: x in old(children)
      ensures TwoSlicesFirst(targets, old(nodes)) && |old(nodes[targets[1].nodeId].ports)| < 2 ==> r == Err(MissingPort)
      ensures r.Ok? && TwoSlicesFirst(targets, old(nodes)) ==> nodes[targets[1].nodeId].ports == [] && targets[1].nodeId !in children
      ensures (&& SameSliceTwice(targets, old(nodes)) && targets == old(edges[eid].targets)
               && SliceFoldable(old(nodes[targets[0].nodeId]), old(edges), edgeOf)) ==> r.Ok?
      ensures r.Ok? && SameSliceTwice(targets, old(nodes)) ==>
                nodes[targets[0].nodeId].ports == [] && targets[0].nodeId !in children
      ensures r.Ok? && SameSliceTwice(targets, old(nodes)) && targets == old(edges[eid].targets) ==> edges[eid].targets == targets
    {
      var folded, toDelete := FoldTargetsAsWritten(targets);
      if folded.Err? {
        return Err(folded.msg);
      }
      ghost var self := SameSliceTwice(targets, old(nodes));
      ghost var emptied := if self then nodes[targets[0].nodeId].ports else [];
      if self && targets == old(edges[eid].targets) {
        assert folded.value == Some(targets[0].nodeId) && edges[eid].targets == targets;
        assert AllIn(edges[eid].targets, nodes);
      }
      r := CloseEdgeAsWritten(eid, folded.value, toDelete);
      if r.Ok? && self {
        var t := targets[0].nodeId;
        assert folded.value == Some(t) && emptied == [] && t in toDelete;
        assert |nodes[t].ports| == 0;
        if targets == old(edges[eid].targets) {
          KeptOnInitial(targets, nodes, t);
        }
      }
    }

    /** The tail of `aggregateEdgeTargets` as written: the slice the others
        were folded into, if any, is renumbered and the edge keeps only its
        targets on it and on other kinds of node; the slices in `toDelete`
        leave the parent's children. */
    method CloseEdgeAsWritten(eid: nat, first: Option<nat>, toDelete: set<nat>) returns (r: Result<()>)
      requires Valid() && eid in edges && (first.Some? ==> first.value in nodes && IsSlice(nodes[first.value]))
      modifies this
      ensures Valid() && edgeList == old(edgeList) && merged == old(merged) && nodes.Keys == old(nodes.Keys)
      ensures forall e | e in edges && e != eid :: edges[e] == old(edges[e])
      ensures forall x | x in nodes && (first.None? || x != first.value) :: nodes[x] == old(nodes[x])
      ensures first.Some? ==> |nodes[first.value].ports| == |old(nodes[first.value].ports)|
      ensures first.None? ==> r.Ok? && edges == old(edges)
      ensures first.Some? ==> (r.Ok? <==> AllIn(old(edges[eid].targets), old(nodes)))
      ensures r.Ok? && first.Some? ==> edges[eid].targets == Kept(old(edges[eid].targets), nodes, first.value)
      ensures r.Ok? ==> children == Without(old(children), toDelete)
    {
      if first.Some? {
        var kept := FinishEdge(eid, first.value);
        if kept.Err? {
          return kept;
        }
      }
      WithoutInside(children, toDelete, nodes);
      children := Without(children, toDelete);
      r := Ok(());
    }

    /** `aggregateSplits`: the slices on the targets of each edge of the
        list are folded, edge after edge, as `SlicesFrom` replays it. */
    method AggregateSplits() returns (r: Result<()>)
      requires Valid()
      modifies this
      ensures Valid() && edgeList == old(edgeList)
      ensures old(merged) <= merged && forall x | x in merged - old(merged) :: IsSlice(nodes[x])
      ensures forall nid | nid in nodes && !IsSlice(nodes[nid]) :: nodes[nid] == old(nodes[nid])
      ensures r.Ok? ==> children == Without(old(children), merged - old(merged))
      ensures r.Ok? ==> forall k | 0 <= k < |edgeList| :: OneWhole(edges[edgeList[k]].targets, nodes, merged)
      ensures r.Ok? ==> forall e | e in edges :: DroppedFolded(old(edges[e].targets), edges[e].targets, merged)
      ensures old(SlicesWhole()) && r.Err? ==> r.msg != MissingPort
      ensures r.Err? ==> r.msg in {MissingNode, MissingPort, MissingSource}
      ensures var t := SlicesFrom(SliceState(old(nodes), old(edges), old(merged)), edgeOf, edgeList, 0);
              && (r.Ok? <==> t.Ok?) && (r.Err? ==> r.msg == t.msg)
              && (r.Ok? ==> nodes == t.value.nodes && edges == t.value.edges && merged == t.value.merged)
    {
      r := FoldEdges();
      ghost var s0 := SliceState(old(nodes), old(edges), old(merged));
      SlicesFromSettle(s0, s0, edgeOf, edgeList, 0);
    }

    /** The loop of `aggregateSplits`: each edge of the list gets its turn. */
    method FoldEdges() returns (r: Result<()>)
      requires Valid()
      modifies this
      ensures Valid() && edgeList == old(edgeList)
      ensures old(merged) <= merged && forall x | x in merged - old(merged) :: IsSlice(nodes[x])
      ensures forall nid | nid in nodes && !IsSlice(nodes[nid]) :: nodes[nid] == old(nodes[nid])
      ensures r.Ok? ==> children == Without(old(children), merged - old(merged))
      ensures old(SlicesWhole()) && r.Err? ==> r.msg != MissingPort
      ensures r.Err? ==> r.msg in {MissingNode, MissingPort, MissingSource}
      ensures var t := SlicesFrom(SliceState(old(nodes), old(edges), old(merged)), edgeOf, edgeList, 0);
              && (r.Ok? <==> t.Ok?) && (r.Err? ==> r.msg == t.msg)
              && (r.Ok? ==> nodes == t.value.nodes && edges == t.value.edges && merged == t.value.merged)
    {
      assert merged - old(merged) == {};
      assert Without(children, {}) == children by { WithoutNothing(children); }
      ghost var spec := SlicesFrom(SliceState(nodes, edges, merged), edgeOf, edgeList, 0);
      for i := 0 to |edgeList|
        invariant Valid() && edgeList == old(edgeList)
        invariant old(merged) <= merged && forall x | x in merged - old(merged) :: IsSlice(nodes[x])
        invariant forall nid | nid in nodes && !IsSlice(nodes[nid]) :: nodes[nid] == old(nodes[nid])
        invariant children == Without(old(children), merged - old(merged))
        invariant old(SlicesWhole()) ==> SlicesWhole()
        invariant SlicesFrom(SliceState(nodes, edges, merged), edgeOf, edgeList, i) == spec
      {
        ghost var before := merged;
        ghost var s := SliceState(nodes, edges, merged);
        var eid := edgeList[i];
        var step := AggregateEdgeTargets(eid, edges[eid].targets);
        if step.Err? {
          assert SlicesFrom(s, edgeOf, edgeList, i) == Err(step.msg);
          return step;
        }
        assert SlicesFrom(s, edgeOf, edgeList, i) == SlicesFrom(SliceState(nodes, edges, merged), edgeOf, edgeList, i + 1);
        WithoutGrown(old(children), old(merged), before, merged);
      }
      r := Ok(());
    }

    /** Both passes of `aggregateConcantsAndSplits`: the CONCATs are
        merged, then the SLICEs folded. Only operators leave the children,
        and only edges between merged CONCATs leave the edge list. */
    method FoldAll(concats: seq<nat>) returns (r: Result<()>, ghost drop: set<nat>)
      requires Valid() && merged == {}
      requires forall k | 0 <= k < |concats| :: concats[k] in nodes && IsConcat(nodes[concats[k]])
      modifies this
      ensures Valid()
      ensures r.Ok? ==> children == Without(old(children), drop)
      ensures r.Ok? ==> forall x | x in edgeList :: x in old(edgeList)
      ensures forall x | x in drop && x in orig :: IsConcat(orig[x]) || IsSlice(orig[x])
      ensures old(SlicesWhole()) && r.Err? ==> r.msg != MissingPort
      ensures ConcatsFrom(old(nodes), old(edges), edgeOf, concats, 0, {}, {}).Err? ==> r.Err?
      ensures r.Ok? ==>
                var s := ConcatsFrom(old(nodes), old(edges), edgeOf, concats, 0, {}, {}).value;
                && drop == s.2 + merged && edgeList == Without(old(edgeList), s.3)
                && (forall x | x in merged :: x in nodes && IsSlice(nodes[x]))
                && ConcatsRenumbered(s.0, nodes, concats, drop)
      ensures r.Ok? ==> forall k | 0 <= k < |edgeList| :: OneWhole(edges[edgeList[k]].targets, nodes, merged)
      ensures var b := BothPasses(old(nodes), old(edges), edgeOf, concats, old(edgeList));
              && (r.Ok? <==> b.Ok?)
              && (r.Ok? ==> nodes == b.value.0.nodes && edges == b.value.0.edges && merged == b.value.0.merged)
    {
      var folded, dropped := AggregateConcats(concats);
      drop := dropped;
      if old(SlicesWhole()) {
        SlicesWholeKept(old(nodes), nodes, merged);
      }
      DroppedAreConcats(orig, dropped, concats);
      if folded.Err? {
        return folded, drop;
      }
      ghost var s := ConcatsFrom(old(nodes), old(edges), edgeOf, concats, 0, {}, {}).value.0;
      KindsKept(nodes, nodes);
      RenumberedSurvives(s, nodes, nodes, concats, dropped, {});
      folded := FoldSlices(concats, dropped, s);
      WithoutTwice(old(children), dropped, merged);
      drop := dropped + merged;
      r := folded;
    }

    /** The SLICE pass of `aggregateConcantsAndSplits`, after the CONCAT
        pass: the CONCATs it left are left as they are. */
    method FoldSlices(concats: seq<nat>, ghost dropped: set<nat>, ghost s: map<nat, Node>) returns (r: Result<()>)
      requires Valid() && merged == {}
      requires forall k | 0 <= k < |concats| :: concats[k] in nodes && IsConcat(nodes[concats[k]])
      requires ConcatsRenumbered(s, nodes, concats, dropped + {})
      modifies this
      ensures Valid() && edgeList == old(edgeList)
      ensures r.Ok? ==> children == Without(old(children), merged)
      ensures forall x | x in merged :: x in nodes && IsSlice(nodes[x])
      ensures r.Ok? ==> ConcatsRenumbered(s, nodes, concats, dropped + merged)
      ensures r.Ok? ==> forall k | 0 <= k < |edgeList| :: OneWhole(edges[edgeList[k]].targets, nodes, merged)
      ensures old(SlicesWhole()) && r.Err? ==> r.msg != MissingPort
      ensures var t := SlicesFrom(SliceState(old(nodes), old(edges), {}), edgeOf, edgeList, 0);
              && (r.Ok? <==> t.Ok?) && (r.Err? ==> r.msg == t.msg)
              && (r.Ok? ==> nodes == t.value.nodes && edges == t.value.edges && merged == t.value.merged)
    {
      ghost var midNodes := nodes;
      r := AggregateSplits();
      assert merged - {} == merged;
      if r.Ok? {
        KindsKept(midNodes, nodes);
        ConcatsRenumberedKept(s, midNodes, nodes, concats, dropped, merged);
      }
    }

    /** `filterTargets`: the edge keeps its targets on the first slice and
        on nodes that are no slice. A target on a node that is not in the
        dictionary fails (the source reads its metadata). */
    method FilterTargets(eid: nat, initial: nat) returns (r: Result<()>)
      requires Valid() && eid in edges
      modifies this
      ensures Valid()
      ensures nodes == old(nodes) && children == old(children) && edgeList == old(edgeList) && merged == old(merged)
      ensures r.Ok? <==> AllIn(old(edges[eid].targets), nodes)
      ensures r.Ok? ==> edges == old(edges)[eid := old(edges[eid]).(targets := Kept(old(edges[eid].targets), nodes, initial))]
      ensures r.Err? ==> r.msg == MissingNode && edges == old(edges)
    {
      var ts := edges[eid].targets;
      var kept := [];
      for i := 0 to |ts|
        invariant unchanged(this)
        invariant AllIn(ts[..i], nodes)
        invariant kept == Kept(ts[..i], nodes, initial)
      {
        if ts[i].nodeId !in nodes {
          assert ts[i].nodeId == ts[..|ts|][i].nodeId;
          return Err(MissingNode);
        }
        KeptSnoc(ts, i, nodes, initial);
        if ts[i].nodeId == initial || !IsSlice(nodes[ts[i].nodeId]) {
          kept := kept + [ts[i]];
        }
      }
      assert ts[..|ts|] == ts;
      edges := edges[eid := edges[eid].(targets := kept)];
      r := Ok(());
    }
  }

  lemma {:induction false} KeptAppend(a: seq<Endpoint>, b: seq<Endpoint>, ns: map<nat, Node>, initial: nat)
    requires AllIn(a, ns) && AllIn(b, ns)
    ensures AllIn(a + b, ns)
    ensures Kept(a + b, ns, initial) == Kept(a, ns, initial) + Kept(b, ns, initial)
  {
    assert forall k | 0 <= k < |a + b| :: (a + b)[k] == if k < |a| then a[k] else b[k - |a|];
    if a != [] {
      assert (a + b)[1..] == a[1..] + b;
      KeptAppend(a[1..], b, ns, initial);
    } else {
      assert a + b == b;
    }
  }

  lemma KeptSnoc(ts: seq<Endpoint>, i: nat, ns: map<nat, Node>, initial: nat)
    requires i < |ts| && AllIn(ts[..i], ns) && ts[i].nodeId in ns
    ensures AllIn(ts[..i + 1], ns)
    ensures Kept(ts[..i + 1], ns, initial)
            == Kept(ts[..i], ns, initial) + (if ts[i].nodeId == initial || !IsSlice(ns[ts[i].nodeId]) then [ts[i]] else [])
  {
    assert ts[..i + 1] == ts[..i] + [ts[i]];
    KeptAppend(ts[..i], [ts[i]], ns, initial);
    assert [ts[i]][1..] == [];
  }

  /** Merging two CONCATs keeps the bound: the moved ports were covered by
      the left CONCAT's `maxId`, which the right one's now reaches. */
  lemma ConcatKeepsBound(nodes: map<nat, Node>, parentId: nat, bound: int, left: nat, right: nat,
                         inputs: seq<Port>, idx: nat, maxId: Option<int>)
    requires Bounded(nodes, parentId, bound) && left in nodes && right in nodes
    requires IsConcat(nodes[left]) && IsConcat(nodes[right])
    requires forall p | p in inputs :: p in nodes[left].ports
    requires idx < |nodes[right].ports|
    requires maxId == if inputs == [] then nodes[right].maxId else Raised(nodes[right].maxId, nodes[left].maxId)
    ensures Bounded(nodes[right := nodes[right].(ports := Placed(nodes[right].ports, idx, inputs), maxId := maxId)], parentId, bound)
  {
    var l := nodes[left];
    var rt := nodes[right];
    var m := maxId.value;
    assert CheckMaxId(l) && CheckMaxId(rt);
    PortsWithinMonotone(rt.ports, rt.maxId.value, m);
    if inputs != [] {
      PortsWithinMonotone(l.ports, l.maxId.value, m);
      PortsFrom(inputs, l.ports, m);
    }
    PortsWithinAppend(rt.ports, inputs, m);
    PlacedFrom(rt.ports, idx, inputs);
    PortsFrom(Placed(rt.ports, idx, inputs), rt.ports + inputs, m);
    Regrown(rt, Placed(rt.ports, idx, inputs), m);
  }

  /** Folding one slice into another keeps the bound in the same way. */
  lemma SplitKeepsBound(nodes: map<nat, Node>, parentId: nat, bound: int, initial: nat, oldId: nat)
    requires Bounded(nodes, parentId, bound) && initial in nodes && oldId in nodes
    requires IsSlice(nodes[initial]) && IsSlice(nodes[oldId]) && |nodes[oldId].ports| >= 2
    ensures Bounded(Absorbed(nodes, initial, oldId), parentId, bound)
  {
    var i := nodes[initial];
    var o := nodes[oldId];
    var m := Raised(i.maxId, o.maxId).value;
    PortsWithinMonotone(i.ports, i.maxId.value, m);
    PortsWithinMonotone(o.ports, o.maxId.value, m);
    PortsFrom([o.ports[1]], o.ports, m);
    PortsWithinAppend(i.ports, [o.ports[1]], m);
    Regrown(i, i.ports + [o.ports[1]], m);
    var n1 := nodes[initial := i.(ports := i.ports + [o.ports[1]], maxId := Raised(i.maxId, o.maxId))];
    Regrown(n1[oldId], [], n1[oldId].maxId.value);
  }

  // ---------------------------------------------------------------------
  // The dictionaries and the pass over one node

  /** `getNodeIdToNodeDict`: the node and its children under their ids; a
      child with the node's id, or a later child with an earlier one's id,
      replaces it. */
  method GetNodeIdToNodeDict(node: Node) returns (r: map<nat, Node>)
    ensures forall id :: id in r <==> id == node.id || id in ChildIds(node.children)
    ensures forall id | id in r :: r[id].id == id
    ensures node.id !in ChildIds(node.children) ==> r[node.id] == node
    ensures Distinct(ChildIds(node.children)) ==>
              forall k | 0 <= k < |node.children| :: r[node.children[k].id] == node.children[k]
  {
    var cs := node.children;
    r := map[node.id := node];
    for i := 0 to |cs|
      invariant forall id :: id in r <==> id == node.id || id in ChildIds(cs[..i])
      invariant forall id | id in r :: r[id].id == id
      invariant node.id !in ChildIds(cs[..i]) ==> r[node.id] == node
      invariant Distinct(ChildIds(cs)) ==> forall k | 0 <= k < i :: r[cs[k].id] == cs[k]
    {
      assert ChildIds(cs[..i + 1]) == ChildIds(cs[..i]) + [cs[i].id];
      r := r[cs[i].id := cs[i]];
    }
    assert cs[..|cs|] == cs;
  }

  /** The edges of a list under their ids; with distinct ids, each edge is
      found under its own. */
  method IndexEdges(es: seq<Edge>) returns (r: map<nat, Edge>)
    ensures forall id :: id in r <==> id in EdgeIds(es)
    ensures forall id | id in r :: r[id].id == id
    ensures forall k | 0 <= k < |es| :: es[k].id in r
    ensures Distinct(EdgeIds(es)) ==> forall k | 0 <= k < |es| :: r[es[k].id] == es[k]
  {
    r := map[];
    for i := 0 to |es|
      invariant forall id :: id in r <==> id in EdgeIds(es[..i])
      invariant forall id | id in r :: r[id].id == id
      invariant forall k | 0 <= k < i :: es[k].id in r
      invariant Distinct(EdgeIds(es)) ==> forall k | 0 <= k < i :: r[es[k].id] == es[k]
    {
      assert EdgeIds(es[..i + 1]) == EdgeIds(es[..i]) + [es[i].id];
      assert forall k | 0 <= k <= i :: EdgeIds(es)[k] == es[k].id;
      r := r[es[i].id := es[i]];
    }
    assert es[..|es|] == es;
  }

  /** The port-to-edge dictionary with each edge named by its id. */
  function EdgeIdOf(dict: map<nat, Edge>): (r: map<nat, nat>)
    ensures r.Keys == dict.Keys && forall p | p in r :: r[p] == dict[p].id
  {
    map p | p in dict :: dict[p].id
  }

  const MissingList := "Cannot iterate an undefined list"

  /** Every SLICE of the list has its input and its output port. */
  predicate SlicesHavePorts(cs: seq<Node>)
  {
    forall k | 0 <= k < |cs| :: IsSlice(cs[k]) ==> |cs[k].ports| >= 2
  }

  /** The children a pass leaves: each is an old child, reshaped, and every
      old child that is no operator is among them, unchanged, as long as
      only operators were dropped. */
  lemma ResultChildren(node: Node, orig: map<nat, Node>, nodes: map<nat, Node>, parentId: nat,
                       drop: set<nat>, kept: seq<nat>)
    requires Distinct(ChildIds(node.children))
    requires forall k | 0 <= k < |node.children| :: node.children[k].id in orig && orig[node.children[k].id] == node.children[k]
    requires NodesEvolved(orig, nodes, parentId)
    requires kept == Without(ChildIds(node.children), drop)
    requires forall x | x in drop && x in orig :: IsConcat(orig[x]) || IsSlice(orig[x])
    ensures forall k | 0 <= k < |kept| :: kept[k] in nodes
    ensures forall k | 0 <= k < |kept| :: exists j | 0 <= j < |node.children| :: Reshaped(node.children[j], nodes[kept[k]])
    ensures forall k | 0 <= k < |node.children| && !IsConcat(node.children[k]) && !IsSlice(node.children[k]) ::
              node.children[k] in Gather(nodes, kept)
  {
    var ids := ChildIds(node.children);
    forall k | 0 <= k < |kept| ensures kept[k] in nodes && exists j | 0 <= j < |node.children| :: Reshaped(node.children[j], nodes[kept[k]]) {
      assert kept[k] in kept;
      var j :| 0 <= j < |ids| && ids[j] == kept[k];
    }
    assert forall k | 0 <= k < |kept| :: kept[k] in nodes;
    forall k | 0 <= k < |node.children| && !IsConcat(node.children[k]) && !IsSlice(node.children[k])
      ensures node.children[k] in Gather(nodes, kept)
    {
      var c := node.children[k];
      assert ids[k] == c.id && c.id in ids;
      assert c.id in kept;
      var m :| 0 <= m < |kept| && kept[m] == c.id;
      assert Gather(nodes, kept)[m] == nodes[c.id] == c;
    }
  }

  /** The node as the pass leaves it: its own entry, with the surviving
      children and edges in their order. */
  function Collect(nodes: map<nat, Node>, edges: map<nat, Edge>, parentId: nat, children: seq<nat>, edgeList: seq<nat>): Node
    requires parentId in nodes
    requires forall k | 0 <= k < |children| :: children[k] in nodes
    requires forall k | 0 <= k < |edgeList| :: edgeList[k] in edges
  {
    nodes[parentId].(children := Gather(nodes, children), edges := Gather(edges, edgeList))
  }

  lemma DistinctCons(x: nat, s: seq<nat>)
    requires Distinct([x] + s)
    ensures x !in s && Distinct(s)
  {
    forall k | 0 <= k < |s| ensures s[k] != x {
      assert ([x] + s)[0] == x && ([x] + s)[k + 1] == s[k];
    }
    forall i, j | 0 <= i < j < |s| ensures s[i] != s[j] {
      assert ([x] + s)[i + 1] == s[i] && ([x] + s)[j + 1] == s[j];
    }
  }

  /** The dictionaries of one node, as `aggregateConcantsAndSplits` builds
      them, with every id distinct: the node and each child under its own
      id, each edge under its own id, and each port under the id of the
      last edge touching it. */
  ghost predicate Indexed(node: Node, nodes: map<nat, Node>, edges: map<nat, Edge>, edgeOf: map<nat, nat>)
  {
    && IndexedNodes(node, nodes)
    && (forall id :: id in edges <==> id in EdgeIds(node.edges))
    && (forall id | id in edges :: edges[id].id == id)
    && (forall k | 0 <= k < |node.edges| :: edges[node.edges[k].id] == node.edges[k])
    && (forall p :: p in edgeOf <==> LastEdgeOf(node.edges, p).Some?)
    && (forall p | p in edgeOf :: edgeOf[p] == LastEdgeOf(node.edges, p).value.id)
    && (forall p | p in edgeOf :: edgeOf[p] in edges)
  }

  /** The dictionaries of a node are determined by it. */
  lemma IndexedUnique(node: Node, n1: map<nat, Node>, e1: map<nat, Edge>, o1: map<nat, nat>,
                      n2: map<nat, Node>, e2: map<nat, Edge>, o2: map<nat, nat>)
    requires Indexed(node, n1, e1, o1) && Indexed(node, n2, e2, o2)
    ensures n1 == n2 && e1 == e2 && o1 == o2
  {
    NodesIndexUnique(node, n1, n2);
    EdgesIndexUnique(node.edges, e1, e2);
    EdgeOfUnique(node.edges, o1, o2);
  }

  lemma EdgeOfUnique(es: seq<Edge>, o1: map<nat, nat>, o2: map<nat, nat>)
    requires forall p :: p in o1 <==> LastEdgeOf(es, p).Some?
    requires forall p | p in o1 :: o1[p] == LastEdgeOf(es, p).value.id
    requires forall p :: p in o2 <==> LastEdgeOf(es, p).Some?
    requires forall p | p in o2 :: o2[p] == LastEdgeOf(es, p).value.id
    ensures o1 == o2
  {
    assert o1.Keys == o2.Keys;
  }

  lemma NodesIndexUnique(node: Node, n1: map<nat, Node>, n2: map<nat, Node>)
    requires IndexedNodes(node, n1) && IndexedNodes(node, n2)
    ensures n1 == n2
  {
    forall id | id in n1 ensures n2[id] == n1[id] {
      if id != node.id {
        var k :| 0 <= k < |node.children| && ChildIds(node.children)[k] == id;
      }
    }
  }

  lemma EdgesIndexUnique(es: seq<Edge>, e1: map<nat, Edge>, e2: map<nat, Edge>)
    requires forall id :: id in e1 <==> id in EdgeIds(es)
    requires forall id :: id in e2 <==> id in EdgeIds(es)
    requires forall k | 0 <= k < |es| :: e1[es[k].id] == es[k]
    requires forall k | 0 <= k < |es| :: e2[es[k].id] == es[k]
    ensures e1 == e2
  {
    forall id | id in e1 ensures e2[id] == e1[id] {
      var k :| 0 <= k < |es| && EdgeIds(es)[k] == id;
    }
  }

  /** The node and each child under its own id. */
  ghost predicate IndexedNodes(node: Node, nodes: map<nat, Node>)
  {
    && (forall id :: id in nodes <==> id == node.id || id in ChildIds(node.children))
    && (forall id | id in nodes :: nodes[id].id == id)
    && nodes[node.id] == node
    && (forall k | 0 <= k < |node.children| :: nodes[node.children[k].id] == node.children[k])
  }

  /** `getNodeIdToNodeDict`, the edges by id and `getPortToEdgeDict` of
      one node whose ids are distinct. */
  method Dictionaries(node: Node) returns (nodes: map<nat, Node>, edges: map<nat, Edge>, edgeOf: map<nat, nat>)
    requires node.id !in ChildIds(node.children) && Distinct(ChildIds(node.children))
    requires Distinct(EdgeIds(node.edges))
    ensures Indexed(node, nodes, edges, edgeOf)
  {
    var dict := GetPortToEdgeDict(node.edges);
    nodes := GetNodeIdToNodeDict(node);
    edges := IndexEdges(node.edges);
    edgeOf := EdgeIdOf(dict);
    forall p | p in edgeOf ensures edgeOf[p] in edges {
      var k :| 0 <= k < |node.edges| && node.edges[k] == LastEdgeOf(node.edges, p).value;
    }
  }

  /** Builds the dictionaries and the folding state for one node. */
  method StartFolder(node: Node, ghost bound: int) returns (f: Folder, concats: seq<nat>)
    requires node.id !in ChildIds(node.children) && Distinct(ChildIds(node.children))
    requires Distinct(EdgeIds(node.edges))
    ensures fresh(f) && f.Valid() && f.merged == {} && f.parentId == node.id
    ensures f.children == ChildIds(node.children) && f.edgeList == EdgeIds(node.edges)
    ensures Indexed(node, f.orig, f.edges, f.edgeOf) && f.nodes == f.orig && concats == ConcatIds(node.children)
    ensures forall k | 0 <= k < |concats| :: concats[k] in f.nodes && IsConcat(f.nodes[concats[k]])
    ensures f.bound == bound && f.bounded == Bounded(f.nodes, node.id, bound)
  {
    var ids := ChildIds(node.children);
    concats := FillConcats(node.children);
    var nodes, edges, edgeOf := Dictionaries(node);
    assert forall k | 0 <= k < |ids| :: ids[k] in nodes by {
      assert forall k | 0 <= k < |ids| :: ids[k] in ids;
    }
    assert forall k | 0 <= k < |node.edges| :: EdgeIds(node.edges)[k] in edges by {
      assert forall k | 0 <= k < |node.edges| :: EdgeIds(node.edges)[k] in EdgeIds(node.edges);
    }
    f := new Folder(node.id, nodes, edges, ids, EdgeIds(node.edges), edgeOf, bound);
    ConcatIdsSelect(node.children);
    assert forall k | 0 <= k < |concats| :: concats[k] in concats;
  }

  /** With the children bounded, a plain node's dictionary is bounded. */
  lemma StartBounded(node: Node, nodes: map<nat, Node>, edges: map<nat, Edge>, edgeOf: map<nat, nat>, bound: int)
    requires Indexed(node, nodes, edges, edgeOf)
    requires !IsConcat(node) && !IsSlice(node) && ChildrenWithin(node.children, bound)
    ensures Bounded(nodes, node.id, bound)
  {
    forall nid | nid in nodes && nid != node.id ensures CheckMaxId(nodes[nid]) && nodes[nid].maxId.value <= bound {
      var k :| 0 <= k < |ChildIds(node.children)| && ChildIds(node.children)[k] == nid;
    }
  }

  /** With every SLICE child whole, every SLICE of the dictionary is. */
  lemma StartWhole(node: Node, nodes: map<nat, Node>, edges: map<nat, Edge>, edgeOf: map<nat, nat>)
    requires Indexed(node, nodes, edges, edgeOf)
    requires !IsSlice(node) && SlicesHavePorts(node.children)
    ensures forall nid | nid in nodes && IsSlice(nodes[nid]) :: |nodes[nid].ports| >= 2
  {
    forall nid | nid in nodes && IsSlice(nodes[nid]) ensures |nodes[nid].ports| >= 2 {
      if nid != node.id {
        var k :| 0 <= k < |ChildIds(node.children)| && ChildIds(node.children)[k] == nid;
      }
    }
  }

  /** Merging CONCATs leaves every SLICE as it was, so SLICEs that all had
      two ports still do. */
  lemma WholeKept(orig: map<nat, Node>, nodes: map<nat, Node>, parentId: nat)
    requires NodesEvolved(orig, nodes, parentId)
    requires forall nid | nid in orig && IsSlice(orig[nid]) :: |orig[nid].ports| >= 2
    requires forall nid | nid in nodes && !IsConcat(nodes[nid]) :: nodes[nid] == orig[nid]
    ensures forall nid | nid in nodes && IsSlice(nodes[nid]) :: |nodes[nid].ports| >= 2
  {
  }

  /** Only CONCATs of the list are merged away. */
  lemma DroppedAreConcats(orig: map<nat, Node>, dropped: set<nat>, concats: seq<nat>)
    requires forall k | 0 <= k < |concats| :: concats[k] in orig && IsConcat(orig[concats[k]])
    requires forall x | x in dropped :: x in concats
    ensures forall x | x in dropped :: x in orig && IsConcat(orig[x])
  {
    forall x | x in dropped ensures x in orig && IsConcat(orig[x]) {
      var k :| 0 <= k < |concats| && concats[k] == x;
    }
  }

  /** What the pass leaves, from the state it ends in. */
  lemma Outcome(node: Node, orig: map<nat, Node>, nodes: map<nat, Node>, edges: map<nat, Edge>,
                children: seq<nat>, edgeList: seq<nat>, drop: set<nat>, bound: int)
    requires IndexedNodes(node, orig) && Distinct(ChildIds(node.children)) && node.id !in ChildIds(node.children)
    requires NodesEvolved(orig, nodes, node.id) && forall id | id in edges :: edges[id].id == id
    requires children == Without(ChildIds(node.children), drop)
    requires forall x | x in drop && x in orig :: IsConcat(orig[x]) || IsSlice(orig[x])
    requires forall k | 0 <= k < |edgeList| :: edgeList[k] in EdgeIds(node.edges) && edgeList[k] in edges
    requires !IsConcat(node) && !IsSlice(node) && ChildrenWithin(node.children, bound) ==> Bounded(nodes, node.id, bound)
    ensures forall k | 0 <= k < |children| :: children[k] in nodes
    ensures var n := Collect(nodes, edges, node.id, children, edgeList);
      && (!IsConcat(node) && !IsSlice(node) ==> n == node.(children := n.children, edges := n.edges))
      && |n.children| <= |node.children|
      && (forall k | 0 <= k < |n.children| :: exists j | 0 <= j < |node.children| :: Reshaped(node.children[j], n.children[k]))
      && (forall k | 0 <= k < |node.children| && !IsConcat(node.children[k]) && !IsSlice(node.children[k]) ::
            node.children[k] in n.children)
      && (forall k | 0 <= k < |n.edges| :: n.edges[k].id in EdgeIds(node.edges))
      && (!IsConcat(node) && !IsSlice(node) && ChildrenWithin(node.children, bound) ==> ChildrenWithin(n.children, bound))
  {
    ResultChildren(node, orig, nodes, node.id, drop, children);
    var n := Collect(nodes, edges, node.id, children, edgeList);
    forall k | 0 <= k < |n.edges| ensures n.edges[k].id in EdgeIds(node.edges) {
      assert n.edges[k] == edges[edgeList[k]];
    }
    if !IsConcat(node) && !IsSlice(node) && ChildrenWithin(node.children, bound) {
      forall k | 0 <= k < |n.children| ensures CheckMaxId(n.children[k]) && n.children[k].maxId.value <= bound {
        assert children[k] in children;
        assert n.children[k] == nodes[children[k]];
      }
    }
  }

  /** Both passes of `aggregateConcantsAndSplits` on values: the CONCAT
      pass, the renumbering of the CONCATs it left, and the SLICE pass over
      the edges of the list it left. Returns the state the SLICE pass ends
      in, with the CONCATs and the edges the CONCAT pass dropped. */
  function BothPasses(nodes: map<nat, Node>, edges: map<nat, Edge>, edgeOf: map<nat, nat>, concats: seq<nat>,
                      edgeList: seq<nat>): (r: Result<(SliceState, set<nat>, set<nat>)>)
    requires forall k | 0 <= k < |concats| :: concats[k] in nodes
    requires forall k | 0 <= k < |edgeList| :: edgeList[k] in edges
    requires forall p | p in edgeOf :: edgeOf[p] in edges
    ensures r.Ok? ==> r.value.0.nodes.Keys == nodes.Keys && r.value.0.edges.Keys == edges.Keys
    ensures r.Ok? ==> && ConcatsFrom(nodes, edges, edgeOf, concats, 0, {}, {}).Ok?
                      && r.value.1 == ConcatsFrom(nodes, edges, edgeOf, concats, 0, {}, {}).value.2
                      && r.value.2 == ConcatsFrom(nodes, edges, edgeOf, concats, 0, {}, {}).value.3
  {
    match ConcatsFrom(nodes, edges, edgeOf, concats, 0, {}, {})
    case Err(msg) => Err(msg)
    case Ok(s) =>
      WithoutInside(edgeList, s.3, s.1);
      match SlicesFrom(SliceState(RenumberFrom(s.0, concats, 0, s.2), s.1, {}), edgeOf, Without(edgeList, s.3), 0)
      case Err(msg) => Err(msg)
      case Ok(t) => Ok((t, s.2, s.3))
  }

  /** The CONCAT pass of `aggregateConcantsAndSplits`, replayed on the
      dictionaries of a node. */
  ghost function ConcatPass(node: Node, nodes: map<nat, Node>, edges: map<nat, Edge>, edgeOf: map<nat, nat>)
    : Result<(map<nat, Node>, map<nat, Edge>, set<nat>, set<nat>)>
    requires Indexed(node, nodes, edges, edgeOf)
  {
    ConcatIdsSelect(node.children);
    var concats := ConcatIds(node.children);
    assert forall k | 0 <= k < |concats| :: concats[k] in nodes by {
      forall k | 0 <= k < |concats| ensures concats[k] in nodes {
        assert concats[k] in concats;
      }
    }
    ConcatsFrom(nodes, edges, edgeOf, concats, 0, {}, {})
  }

  /** Both passes replayed on the dictionaries of a node, over its CONCAT
      children and its edges. */
  ghost function NodePasses(node: Node, nodes: map<nat, Node>, edges: map<nat, Edge>, edgeOf: map<nat, nat>)
    : Result<(SliceState, set<nat>, set<nat>)>
    requires Indexed(node, nodes, edges, edgeOf)
  {
    ConcatIdsSelect(node.children);
    var concats := ConcatIds(node.children);
    var ids := EdgeIds(node.edges);
    assert forall k | 0 <= k < |concats| :: concats[k] in nodes by {
      forall k | 0 <= k < |concats| ensures concats[k] in nodes {
        assert concats[k] in concats;
      }
    }
    assert forall k | 0 <= k < |ids| :: ids[k] in edges by {
      forall k | 0 <= k < |ids| ensures ids[k] in edges {
        assert ids[k] in ids;
      }
    }
    BothPasses(nodes, edges, edgeOf, concats, ids)
  }

  /** `aggregateConcantsAndSplits` replayed on the dictionaries of a node:
      both passes, then the node with the children and the edges they
      left, in their order. */
  ghost function PassesReplay(node: Node, nodes: map<nat, Node>, edges: map<nat, Edge>, edgeOf: map<nat, nat>): Result<Node>
    requires Indexed(node, nodes, edges, edgeOf)
  {
    var ids := EdgeIds(node.edges);
    match NodePasses(node, nodes, edges, edgeOf)
    case Err(msg) => Err(msg)
    case Ok(b) =>
      var children := Without(ChildIds(node.children), b.1 + b.0.merged);
      WithoutInside(ids, b.2, b.0.edges);
      assert forall k | 0 <= k < |children| :: children[k] in b.0.nodes by {
        forall k | 0 <= k < |children| ensures children[k] in b.0.nodes {
          assert children[k] in children;
        }
      }
      Ok(Collect(b.0.nodes, b.0.edges, node.id, children, Without(ids, b.2)))
  }

  /** `r` is what `aggregateConcantsAndSplits` makes of `node`: for the
      dictionaries of the node, it fails exactly when `PassesReplay` does
      and otherwise is its node. */
  ghost predicate PassesReplayed(node: Node, r: Result<Node>)
  {
    forall nodes, edges, edgeOf | Indexed(node, nodes, edges, edgeOf) ::
      && (r.Ok? <==> PassesReplay(node, nodes, edges, edgeOf).Ok?)
      && (r.Ok? ==> r.value == PassesReplay(node, nodes, edges, edgeOf).value)
  }

  /** The ids of the SLICE children. */
  function SliceIds(cs: seq<Node>): set<nat>
  {
    set k | 0 <= k < |cs| && IsSlice(cs[k]) :: cs[k].id
  }

  /** No edge of the node targets two different SLICE children. */
  predicate OneSliceTarget(n: Node)
  {
    forall e, a, b | e in n.edges && 0 <= a < |e.targets| && 0 <= b < |e.targets|
                     && e.targets[a].nodeId in SliceIds(n.children) && e.targets[b].nodeId in SliceIds(n.children) ::
      e.targets[a].nodeId == e.targets[b].nodeId
  }

  /** What the node the two passes leave owes to the CONCAT pass and the
      SLICE pass: the edges left are those not between merged CONCATs; a
      CONCAT child stays exactly when it was not merged away, with the
      ports the merging gave it, renumbered; and no edge targets two SLICE
      children. */
  lemma FoldOutcome(node: Node, orig: map<nat, Node>, nodes: map<nat, Node>, edges: map<nat, Edge>,
                    children: seq<nat>, edgeList: seq<nat>, merged: set<nat>,
                    s: (map<nat, Node>, map<nat, Edge>, set<nat>, set<nat>))
    requires IndexedNodes(node, orig) && NodesEvolved(orig, nodes, node.id) && s.0.Keys == orig.Keys
    requires forall id | id in edges :: edges[id].id == id
    requires forall x | x in merged :: x in nodes && IsSlice(nodes[x])
    requires children == Without(ChildIds(node.children), s.2 + merged)
    requires edgeList == Without(EdgeIds(node.edges), s.3) && forall k | 0 <= k < |edgeList| :: edgeList[k] in edges
    requires ConcatsRenumbered(s.0, nodes, ConcatIds(node.children), s.2 + merged)
    requires forall k | 0 <= k < |edgeList| :: OneWhole(edges[edgeList[k]].targets, nodes, merged)
    ensures forall k | 0 <= k < |children| :: children[k] in nodes
    ensures var n := Collect(nodes, edges, node.id, children, edgeList);
      && EdgeIds(n.edges) == Without(EdgeIds(node.edges), s.3)
      && (forall k | 0 <= k < |node.children| && IsConcat(node.children[k]) ::
            (node.children[k].id in ChildIds(n.children) <==> node.children[k].id !in s.2))
      && (forall k | 0 <= k < |node.children| && IsConcat(node.children[k]) && node.children[k].id !in s.2 ::
            exists j | 0 <= j < |n.children| ::
              && n.children[j].id == node.children[k].id && Numbered(n.children[j].ports)
              && n.children[j] == s.0[node.children[k].id].(ports := n.children[j].ports))
      && OneSliceTarget(n)
  {
    var ids := ChildIds(node.children);
    forall k | 0 <= k < |children| ensures children[k] in nodes {
      assert children[k] in children;
    }
    var n := Collect(nodes, edges, node.id, children, edgeList);
    assert ChildIds(n.children) == children;
    assert EdgeIds(n.edges) == edgeList;
    ConcatIdsSelect(node.children);
    forall k | 0 <= k < |node.children| && IsConcat(node.children[k])
      ensures node.children[k].id in ChildIds(n.children) <==> node.children[k].id !in s.2
    {
      var x := node.children[k].id;
      assert ids[k] == x && x in ids && orig[x] == node.children[k];
      assert x !in merged;
    }
    forall k | 0 <= k < |node.children| && IsConcat(node.children[k]) && node.children[k].id !in s.2
      ensures exists j | 0 <= j < |n.children| ::
                && n.children[j].id == node.children[k].id && Numbered(n.children[j].ports)
                && n.children[j] == s.0[node.children[k].id].(ports := n.children[j].ports)
    {
      var x := node.children[k].id;
      assert ids[k] == x && x in ids && orig[x] == node.children[k];
      assert x !in merged;
      assert x in ConcatIds(node.children);
      assert x in children;
      var j :| 0 <= j < |children| && children[j] == x;
      assert n.children[j] == nodes[x];
    }
    OneSliceLeft(nodes, edges, children, edgeList, merged, node.id);
  }

  /** Children none of which is a folded SLICE, and edges each with at
      most one whole SLICE among its targets: no edge targets two SLICE
      children. */
  lemma OneSliceLeft(nodes: map<nat, Node>, edges: map<nat, Edge>, children: seq<nat>, edgeList: seq<nat>,
                     merged: set<nat>, parentId: nat)
    requires parentId in nodes && forall id | id in nodes :: nodes[id].id == id
    requires forall k | 0 <= k < |children| :: children[k] in nodes && children[k] !in merged
    requires forall k | 0 <= k < |edgeList| :: edgeList[k] in edges
    requires forall k | 0 <= k < |edgeList| :: OneWhole(edges[edgeList[k]].targets, nodes, merged)
    ensures OneSliceTarget(Collect(nodes, edges, parentId, children, edgeList))
  {
    var n := Collect(nodes, edges, parentId, children, edgeList);
    forall e, a, b | e in n.edges && 0 <= a < |e.targets| && 0 <= b < |e.targets|
                     && e.targets[a].nodeId in SliceIds(n.children) && e.targets[b].nodeId in SliceIds(n.children)
      ensures e.targets[a].nodeId == e.targets[b].nodeId
    {
      var i :| 0 <= i < |n.edges| && n.edges[i] == e;
      assert e == edges[edgeList[i]];
      var ja :| 0 <= ja < |n.children| && IsSlice(n.children[ja]) && n.children[ja].id == e.targets[a].nodeId;
      var jb :| 0 <= jb < |n.children| && IsSlice(n.children[jb]) && n.children[jb].id == e.targets[b].nodeId;
      assert Whole(e.targets[a].nodeId, nodes, merged) && Whole(e.targets[b].nodeId, nodes, merged);
    }
  }

  /** What both passes leave, against the dictionaries they started from:
      the CONCAT pass as `ConcatPass` replays it, the SLICEs in `merged`
      folded, the lists filtered, the surviving CONCATs renumbered, and at
      most one whole SLICE on the targets of each edge left. */
  ghost predicate PassesDone(node: Node, bound: int, orig: map<nat, Node>, edges0: map<nat, Edge>, edgeOf: map<nat, nat>,
                             nodes: map<nat, Node>, edges: map<nat, Edge>, children: seq<nat>, edgeList: seq<nat>,
                             merged: set<nat>)
  {
    && Indexed(node, orig, edges0, edgeOf)
    && ConcatPass(node, orig, edges0, edgeOf).Ok?
    && var s := ConcatPass(node, orig, edges0, edgeOf).value;
    && NodesEvolved(orig, nodes, node.id) && s.0.Keys == orig.Keys
    && (forall id | id in edges :: edges[id].id == id)
    && (forall x | x in merged :: x in nodes && IsSlice(nodes[x]))
    && (forall x | x in s.2 + merged && x in orig :: IsConcat(orig[x]) || IsSlice(orig[x]))
    && children == Without(ChildIds(node.children), s.2 + merged)
    && edgeList == Without(EdgeIds(node.edges), s.3) && (forall k | 0 <= k < |edgeList| :: edgeList[k] in edges)
    && ConcatsRenumbered(s.0, nodes, ConcatIds(node.children), s.2 + merged)
    && (forall k | 0 <= k < |edgeList| :: OneWhole(edges[edgeList[k]].targets, nodes, merged))
    && (!IsConcat(node) && !IsSlice(node) && ChildrenWithin(node.children, bound) ==> Bounded(nodes, node.id, bound))
  }

  /** The node both passes leave has what `Outcome` and `FoldOutcome` say. */
  lemma PassesOutcome(node: Node, bound: int, orig: map<nat, Node>, edges0: map<nat, Edge>, edgeOf: map<nat, nat>,
                      nodes: map<nat, Node>, edges: map<nat, Edge>, children: seq<nat>, edgeList: seq<nat>,
                      merged: set<nat>)
    requires node.id !in ChildIds(node.children) && Distinct(ChildIds(node.children))
    requires PassesDone(node, bound, orig, edges0, edgeOf, nodes, edges, children, edgeList, merged)
    ensures forall k | 0 <= k < |children| :: children[k] in nodes
    ensures var n := Collect(nodes, edges, node.id, children, edgeList);
      && (!IsConcat(node) && !IsSlice(node) ==> n == node.(children := n.children, edges := n.edges))
      && |n.children| <= |node.children|
      && (forall k | 0 <= k < |n.children| :: exists j | 0 <= j < |node.children| :: Reshaped(node.children[j], n.children[k]))
      && (forall k | 0 <= k < |node.children| && !IsConcat(node.children[k]) && !IsSlice(node.children[k]) ::
            node.children[k] in n.children)
      && (forall k | 0 <= k < |n.edges| :: n.edges[k].id in EdgeIds(node.edges))
      && (!IsConcat(node) && !IsSlice(node) && ChildrenWithin(node.children, bound) ==> ChildrenWithin(n.children, bound))
    ensures var s := ConcatPass(node, orig, edges0, edgeOf).value;
      var n := Collect(nodes, edges, node.id, children, edgeList);
      && EdgeIds(n.edges) == Without(EdgeIds(node.edges), s.3)
      && (forall k | 0 <= k < |node.children| && IsConcat(node.children[k]) ::
            (node.children[k].id in ChildIds(n.children) <==> node.children[k].id !in s.2))
      && (forall k | 0 <= k < |node.children| && IsConcat(node.children[k]) && node.children[k].id !in s.2 ::
            exists j | 0 <= j < |n.children| ::
              && n.children[j].id == node.children[k].id && Numbered(n.children[j].ports)
              && n.children[j] == s.0[node.children[k].id].(ports := n.children[j].ports))
      && OneSliceTarget(n)
  {
    var s := ConcatPass(node, orig, edges0, edgeOf).value;
    forall k | 0 <= k < |edgeList| ensures edgeList[k] in EdgeIds(node.edges) {
      assert edgeList[k] in edgeList;
    }
    Outcome(node, orig, nodes, edges, children, edgeList, s.2 + merged, bound);
    FoldOutcome(node, orig, nodes, edges, children, edgeList, merged, s);
  }

  /** `aggregateConcantsAndSplits` on one node: the CONCAT chains among its
      children are merged and the SLICEs reading one net are folded, then
      the node keeps the surviving children and edges in their order. A
      node without a visible children or edges list fails. On success the
      node itself is unchanged but for those two lists (unless it is an
      operator itself); every child left is one of its old children with
      new ports or `maxId` at most; every child that is no operator is
      still there, unchanged; every edge left is one of the old edges; and
      the `maxId` bound the children met still holds. When every SLICE has
      its two ports, the pass does not fail on a missing port. */
  method AggregateConcantsAndSplits(node: Node, ghost bound: int) returns (r: Result<Node>)
    requires node.childrenAt.Shown? && node.edgesAt.Shown? ==>
               Distinct([node.id] + ChildIds(node.children)) && Distinct(EdgeIds(node.edges))
    ensures !node.childrenAt.Shown? || !node.edgesAt.Shown? ==> r == Err(MissingList)
    ensures r.Ok? && !IsConcat(node) && !IsSlice(node) ==>
              r.value == node.(children := r.value.children, edges := r.value.edges)
    ensures r.Ok? ==> |r.value.children| <= |node.children|
    ensures r.Ok? ==> forall k | 0 <= k < |r.value.children| ::
              exists j | 0 <= j < |node.children| :: Reshaped(node.children[j], r.value.children[k])
    ensures r.Ok? ==> forall k | 0 <= k < |node.children| && !IsConcat(node.children[k]) && !IsSlice(node.children[k]) ::
              node.children[k] in r.value.children
    ensures r.Ok? ==> forall k | 0 <= k < |r.value.edges| :: r.value.edges[k].id in EdgeIds(node.edges)
    ensures r.Ok? && !IsConcat(node) && !IsSlice(node) && ChildrenWithin(node.children, bound) ==>
              ChildrenWithin(r.value.children, bound)
    ensures !IsSlice(node) && SlicesHavePorts(node.children) && r.Err? ==> r.msg != MissingPort
    ensures node.childrenAt.Shown? && node.edgesAt.Shown? ==>
              forall nodes, edges, edgeOf | Indexed(node, nodes, edges, edgeOf) ::
                && (ConcatPass(node, nodes, edges, edgeOf).Err? ==> r.Err?)
                && (r.Ok? ==> ConcatPass(node, nodes, edges, edgeOf).Ok?)
    ensures node.childrenAt.Shown? && node.edgesAt.Shown? && r.Ok? ==>
              forall nodes, edges, edgeOf | Indexed(node, nodes, edges, edgeOf) ::
                var s := ConcatPass(node, nodes, edges, edgeOf).value;
                && EdgeIds(r.value.edges) == Without(EdgeIds(node.edges), s.3)
                && (forall k | 0 <= k < |node.children| && IsConcat(node.children[k]) ::
                      (node.children[k].id in ChildIds(r.value.children) <==> node.children[k].id !in s.2))
                && (forall k | 0 <= k < |node.children| && IsConcat(node.children[k]) && node.children[k].id !in s.2 ::
                      exists j | 0 <= j < |r.value.children| ::
                        && r.value.children[j].id == node.children[k].id && Numbered(r.value.children[j].ports)
                        && r.value.children[j] == s.0[node.children[k].id].(ports := r.value.children[j].ports))
    ensures r.Ok? ==> OneSliceTarget(r.value)
    ensures node.childrenAt.Shown? && node.edgesAt.Shown? ==>
              forall nodes, edges, edgeOf | Indexed(node, nodes, edges, edgeOf) ::
                && (r.Ok? <==> PassesReplay(node, nodes, edges, edgeOf).Ok?)
                && (r.Ok? ==> r.value == PassesReplay(node, nodes, edges, edgeOf).value)
  {
    if !node.childrenAt.Shown? || !node.edgesAt.Shown? {
      return Err(MissingList);
    }
    ghost var ids := ChildIds(node.children);
    DistinctCons(node.id, ids);
    var folded, nodes, edges, children, edgeList, orig, edges0, edgeOf, merged := FoldNode(node, bound);
    forall nodes', edges', edgeOf' | Indexed(node, nodes', edges', edgeOf')
      ensures nodes' == orig && edges' == edges0 && edgeOf' == edgeOf
    {
      IndexedUnique(node, nodes', edges', edgeOf', orig, edges0, edgeOf);
    }
    if folded.Err? {
      return Err(folded.msg);
    }
    PassesOutcome(node, bound, orig, edges0, edgeOf, nodes, edges, children, edgeList, merged);
    r := Ok(Collect(nodes, edges, node.id, children, edgeList));
  }

  /** Both passes over the dictionaries of one node whose lists are there:
      what they leave, with the dictionaries they started from. */
  method FoldNode(node: Node, ghost bound: int)
    returns (r: Result<()>, nodes: map<nat, Node>, edges: map<nat, Edge>, children: seq<nat>, edgeList: seq<nat>,
             ghost orig: map<nat, Node>, ghost edges0: map<nat, Edge>, ghost edgeOf: map<nat, nat>, ghost merged: set<nat>)
    requires node.id !in ChildIds(node.children) && Distinct(ChildIds(node.children)) && Distinct(EdgeIds(node.edges))
    ensures Indexed(node, orig, edges0, edgeOf)
    ensures ConcatPass(node, orig, edges0, edgeOf).Err? ==> r.Err?
    ensures !IsSlice(node) && SlicesHavePorts(node.children) && r.Err? ==> r.msg != MissingPort
    ensures r.Ok? ==> PassesDone(node, bound, orig, edges0, edgeOf, nodes, edges, children, edgeList, merged)
    ensures var b := NodePasses(node, orig, edges0, edgeOf);
            && (r.Ok? <==> b.Ok?)
            && (r.Ok? ==> nodes == b.value.0.nodes && edges == b.value.0.edges && merged == b.value.0.merged)
  {
    var f, concats := StartFolder(node, bound);
    orig, edges0, edgeOf := f.orig, f.edges, f.edgeOf;
    ghost var within := !IsConcat(node) && !IsSlice(node) && ChildrenWithin(node.children, bound);
    if within {
      StartBounded(node, f.nodes, f.edges, f.edgeOf, bound);
      assert f.bounded;
    }
    if !IsSlice(node) && SlicesHavePorts(node.children) {
      StartWhole(node, f.nodes, f.edges, f.edgeOf);
      assert f.SlicesWhole();
    }
    ghost var drop;
    r, drop := f.FoldAll(concats);
    nodes, edges, children, edgeList, merged := f.nodes, f.edges, f.children, f.edgeList, f.merged;
    if r.Ok? {
      assert within ==> f.bounded;
      forall k | 0 <= k < |edgeList| ensures edgeList[k] in edges {
        assert edgeList[k] in edgeList;
      }
    }
  }

  // ---------------------------------------------------------------------
  // A node where the slice folding as written fails

  /** A SLICE with input port `a` and output port `y`. */
  function TwoBitSlice(id: nat, a: nat, y: nat): Node
  {
    Node(id, "SLICE", "Operator", Some(30), [Port(a, "A", INPUT, WEST, 0, []), Port(y, "Y", OUTPUT, EAST, 1, [])],
         [], Shown, [], Shown)
  }

  /** A node with one output port `o`. */
  function TwoBitDriver(id: nat, o: nat): Node
  {
    Node(id, "drv", "", Some(30), [Port(o, "O", OUTPUT, EAST, 0, [])], [], Shown, [], Shown)
  }

  /** Two SLICEs S1 (id 1) and S2 (id 4) read the same two bits, driven by
      two different nodes X (id 7) and Z (id 9), so the edges of both bits
      (ids 20 and 21) target the inputs of both SLICEs. */
  function TwoBitNodes(): map<nat, Node>
  {
    map[0 := Node(0, "top", "", Some(30), [Port(11, "o1", OUTPUT, EAST, 0, []), Port(12, "o2", OUTPUT, EAST, 1, [])],
                  [], Shown, [], Shown),
        1 := TwoBitSlice(1, 2, 3), 4 := TwoBitSlice(4, 5, 6), 7 := TwoBitDriver(7, 8), 9 := TwoBitDriver(9, 10)]
  }

  function TwoBitEdges(): map<nat, Edge>
  {
    map[20 := Edge(20, "b0", [Endpoint(7, 8)], [Endpoint(1, 2), Endpoint(4, 5)]),
        21 := Edge(21, "b1", [Endpoint(9, 10)], [Endpoint(1, 2), Endpoint(4, 5)]),
        22 := Edge(22, "y1", [Endpoint(1, 3)], [Endpoint(0, 11)]),
        23 := Edge(23, "y2", [Endpoint(4, 6)], [Endpoint(0, 12)])]
  }

  /** The port-to-edge dictionary of those edges: each port under the last
      edge touching it. */
  function TwoBitEdgeOf(): map<nat, nat>
  {
    map[8 := 20, 10 := 21, 2 := 21, 5 := 21, 3 := 22, 11 := 22, 6 := 23, 12 := 23]
  }

  /** The folding state of that node, before any edge is folded. */
  method TwoBitFolder() returns (f: Folder)
    ensures fresh(f) && f.Valid() && f.SlicesWhole()
    ensures f.nodes == f.orig == TwoBitNodes() && f.edges == TwoBitEdges()
    ensures f.edgeOf == TwoBitEdgeOf() && f.merged == {} && f.children == [1, 4, 7, 9]
  {
    var nodes := TwoBitNodes();
    var edges := TwoBitEdges();
    assert forall nid | nid in nodes :: nid in {0, 1, 4, 7, 9};
    assert forall eid | eid in edges :: eid in {20, 21, 22, 23};
    f := new Folder(0, nodes, edges, [1, 4, 7, 9], [20, 21, 22, 23], TwoBitEdgeOf(), 0);
  }

  /** Both bits' edges target S1 and then S2, two SLICEs. */
  lemma TwoBitShape()
    ensures TwoBitEdges()[20].targets == TwoBitEdges()[21].targets == [Endpoint(1, 2), Endpoint(4, 5)]
    ensures TwoSlicesFirst([Endpoint(1, 2), Endpoint(4, 5)], TwoBitNodes())
  {
  }

  /** Folding as written on that node: the first bit's edge folds S2 into
      S1 and leaves S2 without ports; the second bit's edge then folds S2
      again and fails on the port S2 no longer has. */
  method TwoBitFoldAsWritten() returns (first: Result<()>, second: Result<()>)
    ensures first.Err? || second == Err(MissingPort)
  {
    var f := TwoBitFolder();
    TwoBitShape();
    first := f.AggregateEdgeTargetsAsWritten(20, f.edges[20].targets);
    if first.Err? {
      return first, first;
    }
    var targets := f.edges[21].targets;
    assert IsSlice(f.nodes[1]) && IsSlice(f.nodes[4]) && f.nodes[4].ports == [];
    second := f.AggregateEdgeTargetsAsWritten(21, targets);
  }

  /** That node once the first bit's edge is folded: S2 is folded into S1,
      which takes S2's output port 6 as its third port, renumbered; the
      edge leaving port 6 now starts at S1; the first bit's edge targets S1
      only. */
  function TwoBitOnce(): SliceState
  {
    var s1 := TwoBitNodes()[1].(ports := [Port(2, "A", INPUT, WEST, 0, []), Port(3, "Y", OUTPUT, EAST, 1, []),
                                          Port(6, "Y", OUTPUT, EAST, 2, [])]);
    SliceState(TwoBitNodes()[1 := s1][4 := TwoBitNodes()[4].(ports := [])],
               TwoBitEdges()[23 := Edge(23, "y2", [Endpoint(1, 6)], [Endpoint(0, 12)])]
                            [20 := Edge(20, "b0", [Endpoint(7, 8)], [Endpoint(1, 2)])],
               {4})
  }

  /** ... and once the second bit's edge is folded too: S2 is already
      folded, so it is only dropped from that edge's targets. */
  function TwoBitTwice(): SliceState
  {
    TwoBitOnce().(edges := TwoBitOnce().edges[21 := Edge(21, "b1", [Endpoint(9, 10)], [Endpoint(1, 2)])])
  }

  /** Ports without ports under them are numbered in list order. */
  lemma {:induction false} FlatNumbering(ps: seq<Port>, index: int)
    requires forall k | 0 <= k < |ps| :: ps[k].children == []
    ensures |YosysUtils.Numbering(ps, index)| == |ps|
    ensures forall k | 0 <= k < |ps| :: YosysUtils.Numbering(ps, index)[k] == ps[k].(index := index + k)
    decreases |ps|
  {
    if ps != [] {
      assert YosysUtils.PortCount([ps[0]]) == 1 by {
        assert [ps[0]][1..] == [];
      }
      assert YosysUtils.PortNumbering(ps[0], index) == ps[0].(index := index);
      FlatNumbering(ps[1..], index + 1);
      var r := YosysUtils.Numbering(ps, index);
      assert r == [ps[0].(index := index)] + YosysUtils.Numbering(ps[1..], index + 1);
      forall k | 0 <= k < |ps| ensures r[k] == ps[k].(index := index + k) {
        if k > 0 {
          assert r[k] == YosysUtils.Numbering(ps[1..], index + 1)[k - 1];
        }
      }
    }
  }

  /** S1 with S2's output port appended, before it is renumbered. */
  function TwoBitGrown(): Node
  {
    TwoBitNodes()[1].(ports := TwoBitNodes()[1].ports + [Port(6, "Y", OUTPUT, EAST, 1, [])])
  }

  /** The state after S2 is folded into S1, before the edge closes. */
  function TwoBitAbsorbed(): SliceState
  {
    SliceState(TwoBitNodes()[1 := TwoBitGrown()][4 := TwoBitNodes()[4].(ports := [])],
               TwoBitEdges()[23 := Edge(23, "y2", [Endpoint(1, 6)], [Endpoint(0, 12)])],
               {4})
  }

  /** The first bit's targets: S1 is the first whole SLICE, and S2 is
      folded into it. */
  lemma TwoBitFirstTargets()
    ensures TargetsFold(SliceState(TwoBitNodes(), TwoBitEdges(), {}), TwoBitEdgeOf(), TwoBitEdges()[20].targets, 0, None)
            == Ok((TwoBitAbsorbed(), Some(1)))
  {
    var s0 := SliceState(TwoBitNodes(), TwoBitEdges(), {});
    var eo := TwoBitEdgeOf();
    var ts := TwoBitEdges()[20].targets;
    assert ts == [Endpoint(1, 2), Endpoint(4, 5)];
    assert TargetFold(s0, eo, None, 1) == Ok((s0, Some(1)));
    assert Absorbed(s0.nodes, 1, 4) == TwoBitAbsorbed().nodes;
    assert [Endpoint(4, 6)][0 := Endpoint(1, 6)] == [Endpoint(1, 6)];
    assert Resourced(s0.edges, 23, 1) == TwoBitAbsorbed().edges;
    assert s0.nodes[4].ports[1].id == 6 && eo[6] == 23 && HasSource(s0.edges, eo, 6);
    assert s0.merged + {4} == {4};
    assert TargetFold(s0, eo, Some(1), 4) == Ok((TwoBitAbsorbed(), Some(1)));
    assert TargetsFold(TwoBitAbsorbed(), eo, ts, 2, Some(1)) == Ok((TwoBitAbsorbed(), Some(1)));
  }

  /** The first bit's edge closes on S1: S1 renumbered, the edge on S1 only. */
  lemma TwoBitFirstClose()
    ensures EdgeClose(TwoBitAbsorbed(), 20, Some(1)) == Ok(TwoBitOnce())
  {
    var ps := TwoBitGrown().ports;
    assert ps == [Port(2, "A", INPUT, WEST, 0, []), Port(3, "Y", OUTPUT, EAST, 1, []), Port(6, "Y", OUTPUT, EAST, 1, [])];
    FlatNumbering(ps, 0);
    assert YosysUtils.Numbering(ps, 0) == TwoBitOnce().nodes[1].ports;
    var ns := TwoBitAbsorbed().nodes[1 := TwoBitGrown().(ports := YosysUtils.Numbering(TwoBitGrown().ports, 0))];
    assert ns == TwoBitOnce().nodes;
    var ts := TwoBitEdges()[20].targets;
    assert ts == [Endpoint(1, 2), Endpoint(4, 5)];
    assert AllIn(ts, ns) && IsSlice(ns[4]);
    assert Kept(ts[1..], ns, 1) == [] by {
      assert ts[1..] == [Endpoint(4, 5)] && ts[1..][1..] == [];
    }
    assert Kept(ts, ns, 1) == [Endpoint(1, 2)];
  }

  /** The first bit's turn on values. */
  lemma TwoBitFirstTurn()
    ensures EdgeFold(SliceState(TwoBitNodes(), TwoBitEdges(), {}), TwoBitEdgeOf(), 20) == Ok(TwoBitOnce())
  {
    TwoBitFirstTargets();
    TwoBitFirstClose();
  }

  /** The second bit's targets: S1 is the first whole SLICE, and S2, folded
      already, is skipped. */
  lemma TwoBitSecondTargets()
    ensures TargetsFold(TwoBitOnce(), TwoBitEdgeOf(), TwoBitOnce().edges[21].targets, 0, None)
            == Ok((TwoBitOnce(), Some(1)))
  {
    var s1 := TwoBitOnce();
    var eo := TwoBitEdgeOf();
    var ts := s1.edges[21].targets;
    assert ts == [Endpoint(1, 2), Endpoint(4, 5)];
    assert TargetFold(s1, eo, None, 1) == Ok((s1, Some(1)));
    assert TargetFold(s1, eo, Some(1), 4) == Ok((s1, Some(1)));
    assert TargetsFold(s1, eo, ts, 2, Some(1)) == Ok((s1, Some(1)));
  }

  /** The second bit's edge closes on S1: renumbering S1 again changes
      nothing, and the edge is left on S1 only. */
  lemma TwoBitSecondClose()
    ensures EdgeClose(TwoBitOnce(), 21, Some(1)) == Ok(TwoBitTwice())
  {
    var s1 := TwoBitOnce();
    FlatNumbering(s1.nodes[1].ports, 0);
    assert YosysUtils.Numbering(s1.nodes[1].ports, 0) == s1.nodes[1].ports;
    var ns := s1.nodes[1 := s1.nodes[1].(ports := YosysUtils.Numbering(s1.nodes[1].ports, 0))];
    assert ns == s1.nodes;
    var ts := s1.edges[21].targets;
    assert ts == [Endpoint(1, 2), Endpoint(4, 5)];
    assert AllIn(ts, ns) && IsSlice(ns[4]);
    assert Kept(ts[1..], ns, 1) == [] by {
      assert ts[1..] == [Endpoint(4, 5)] && ts[1..][1..] == [];
    }
    assert Kept(ts, ns, 1) == [Endpoint(1, 2)];
  }

  /** The second bit's turn on values. */
  lemma TwoBitSecondTurn()
    ensures EdgeFold(TwoBitOnce(), TwoBitEdgeOf(), 21) == Ok(TwoBitTwice())
  {
    TwoBitSecondTargets();
    TwoBitSecondClose();
  }

  /** The children left once S2 is gone. */
  lemma TwoBitChildren()
    ensures Without([1, 4, 7, 9], {4} - {}) == [1, 7, 9] && Without([1, 7, 9], {4} - {4}) == [1, 7, 9]
  {
    assert {4} - {} == {4} && {4} - {4} == {};
    assert [1, 4, 7, 9][1..] == [4, 7, 9] && [4, 7, 9][1..] == [7, 9];
    assert [1, 7, 9][1..] == [7, 9] && [7, 9][1..] == [9] && [9][1..] == [];
    assert Without([1, 4, 7, 9], {4}) == [1, 7, 9];
    assert Without([1, 7, 9], {}) == [1, 7, 9];
  }

  /** The same node folded with the corrected loop: both edges succeed, S2
      is folded into S1 once, and each bit's edge ends up targeting S1
      only. */
  method TwoBitFold() returns (f: Folder, first: Result<()>, second: Result<()>)
    ensures first.Ok? && second.Ok?
    ensures f.nodes == TwoBitTwice().nodes && f.edges == TwoBitTwice().edges && f.merged == {4}
    ensures f.children == [1, 7, 9]
  {
    f := TwoBitFolder();
    TwoBitFirstTurn();
    first := f.AggregateEdgeTargets(20, f.edges[20].targets);
    assert f.nodes == TwoBitOnce().nodes && f.edges == TwoBitOnce().edges && f.merged == {4};
    TwoBitChildren();
    TwoBitSecondTurn();
    second := f.AggregateEdgeTargets(21, f.edges[21].targets);
  }


  // ---------------------------------------------------------------------
  // A SLICE listed twice among the targets of one edge

  /** A SLICE S (id 1) whose input A (port 2) reads one bit twice, driven
      by node X (id 7): the edge of that bit (id 20) targets A of S twice,
      and S's output Y (port 3) drives the top node's port 11 through
      edge 22. */
  function SelfSliceNodes(): map<nat, Node>
  {
    map[0 := Node(0, "top", "", Some(30), [Port(11, "o1", OUTPUT, EAST, 0, [])], [], Shown, [], Shown),
        1 := TwoBitSlice(1, 2, 3), 7 := TwoBitDriver(7, 8)]
  }

  function SelfSliceEdges(): map<nat, Edge>
  {
    map[20 := Edge(20, "b0", [Endpoint(7, 8)], [Endpoint(1, 2), Endpoint(1, 2)]),
        22 := Edge(22, "y1", [Endpoint(1, 3)], [Endpoint(0, 11)])]
  }

  function SelfSliceEdgeOf(): map<nat, nat>
  {
    map[8 := 20, 2 := 20, 3 := 22, 11 := 22]
  }

  /** The folding state of that node, before any edge is folded. */
  method SelfSliceFolder() returns (f: Folder)
    ensures fresh(f) && f.Valid() && f.SlicesWhole()
    ensures f.nodes == f.orig == SelfSliceNodes() && f.edges == SelfSliceEdges()
    ensures f.edgeOf == SelfSliceEdgeOf() && f.merged == {} && f.children == [1, 7]
  {
    var nodes := SelfSliceNodes();
    var edges := SelfSliceEdges();
    assert forall nid | nid in nodes :: nid in {0, 1, 7};
    assert forall eid | eid in edges :: eid in {20, 22};
    f := new Folder(0, nodes, edges, [1, 7], [20, 22], SelfSliceEdgeOf(), 0);
  }

  /** Folding the bit's edge as written: S is folded into itself, so it
      keeps no port and leaves the parent's children, while the edge still
      targets it twice. */
  method SelfSliceFoldAsWritten() returns (f: Folder, r: Result<()>)
    ensures r.Ok? && 1 in f.nodes && 20 in f.edges
    ensures f.nodes[1].ports == [] && 1 !in f.children
    ensures f.edges[20].targets == [Endpoint(1, 2), Endpoint(1, 2)]
  {
    f := SelfSliceFolder();
    assert SameSliceTwice(f.edges[20].targets, f.nodes);
    assert SliceFoldable(f.nodes[1], f.edges, f.edgeOf);
    r := f.AggregateEdgeTargetsAsWritten(20, f.edges[20].targets);
  }

  /** The same edge folded by the pass the model runs: S is met twice but
      folded once, never into itself, so the whole node is left as it was. */
  lemma SelfSliceFold()
    ensures TargetsFold(SliceState(SelfSliceNodes(), SelfSliceEdges(), {}), SelfSliceEdgeOf(), [Endpoint(1, 2), Endpoint(1, 2)], 0, None)
            == Ok((SliceState(SelfSliceNodes(), SelfSliceEdges(), {}), Some(1)))
    ensures EdgeFold(SliceState(SelfSliceNodes(), SelfSliceEdges(), {}), SelfSliceEdgeOf(), 20)
            == Ok(SliceState(SelfSliceNodes(), SelfSliceEdges(), {}))
  {
    var s0 := SliceState(SelfSliceNodes(), SelfSliceEdges(), {});
    var eo := SelfSliceEdgeOf();
    var ts := [Endpoint(1, 2), Endpoint(1, 2)];
    assert TargetFold(s0, eo, None, 1) == Ok((s0, Some(1)));
    assert TargetFold(s0, eo, Some(1), 1) == Ok((s0, Some(1)));
    assert TargetsFold(s0, eo, ts, 2, Some(1)) == Ok((s0, Some(1)));
    assert TargetsFold(s0, eo, ts, 1, Some(1)) == Ok((s0, Some(1)));
    assert YosysUtils.Numbering(s0.nodes[1].ports, 0) == s0.nodes[1].ports;
    var ns := s0.nodes[1 := s0.nodes[1].(ports := YosysUtils.Numbering(s0.nodes[1].ports, 0))];
    assert ns == s0.nodes;
    KeptOnInitial(ts, s0.nodes, 1);
    assert s0.edges[20 := s0.edges[20].(targets := Kept(ts, ns, 1))] == s0.edges;
    assert EdgeClose(s0, 20, Some(1)) == Ok(s0);
  }
}
