/** Aggregation of the edges of hierarchical ports
    (src/yosysHierarchicalPortEdges.js). When every member of a port group is
    wired one-to-one to a member of one other group, with matching name
    suffixes, the member edges are replaced by a single edge between the two
    group ports. Groups are visited bottom-up, so an aggregated edge can
    itself be aggregated one level higher. */
module HierPortEdges {
  import opened Outcomes
  import opened Graph
  import opened ObjectIdChecks
  import opened PortSuffixes
  import Text
  import LObjects
  import ConcatSplit

  /** The owner of a port as the dictionaries record it: the node for a
      port on the node's outline, the enclosing port for a nested one. Only
      its id and its name are ever read. */
  datatype Owner = Owner(id: nat, name: string)

  function PortOwner(p: Port): Owner
  {
    Owner(p.id, p.name)
  }

  function NodeOwner(n: Node): Owner
  {
    Owner(n.id, n.name)
  }

  // ---------------------------------------------------------------------
  // The id dictionaries. Each is filled depth first, a port before the
  // ports under it and before its later siblings; a later write wins, which
  // is what the right-biased map union `+` does.

  /** Every entry of `a` is also an entry of `b`. */
  predicate SubMap<K, V(==)>(a: map<K, V>, b: map<K, V>)
  {
    forall key | key in a :: key in b && b[key] == a[key]
  }

  /** The parent dictionary `getChildIdToParentDict` adds for `ports`. */
  function ParentMap(owner: Owner, ports: seq<Port>): map<nat, Owner>
    decreases ports
  {
    if ports == [] then map[]
    else map[ports[0].id := owner] + ParentMap(PortOwner(ports[0]), ports[0].children) + ParentMap(owner, ports[1..])
  }

  /** The port dictionary `getPortIdToPortDict` adds for `ports`. */
  function PortMap(ports: seq<Port>): map<nat, Port>
  {
    if ports == [] then map[]
    else map[ports[0].id := ports[0]] + PortMap(ports[0].children) + PortMap(ports[1..])
  }

  /** The owning-node dictionary `getPortIdToNodeIdDict` adds for `ports`. */
  function NodeIdMap(nodeId: nat, ports: seq<Port>): map<nat, nat>
    decreases ports
  {
    if ports == [] then map[]
    else map[ports[0].id := nodeId] + NodeIdMap(nodeId, ports[0].children) + NodeIdMap(nodeId, ports[1..])
  }

  /** `getChildIdToParentDict`: records the owner of every port of the tree. */
  method GetChildIdToParentDict(owner: Owner, ports: seq<Port>, dict: map<nat, Owner>) returns (r: map<nat, Owner>)
    ensures r == dict + ParentMap(owner, ports)
    decreases ports
  {
    r := dict;
    for i := 0 to |ports|
      invariant r == dict + ParentMap(owner, ports[..i])
    {
      ghost var before := r;
      r := r[ports[i].id := owner];
      r := GetChildIdToParentDict(PortOwner(ports[i]), ports[i].children, r);
      assert ports[..i + 1] == ports[..i] + [ports[i]];
      ParentMapSnoc(owner, ports[..i], ports[i]);
      UpdateThenUnion(before, ports[i].id, owner, ParentMap(PortOwner(ports[i]), ports[i].children));
      UnionAssoc(dict, ParentMap(owner, ports[..i]), map[ports[i].id := owner] + ParentMap(PortOwner(ports[i]), ports[i].children));
    }
    assert ports[..|ports|] == ports;
  }

  /** `getPortIdToPortDict`: records every port of the tree under its id. */
  method GetPortIdToPortDict(ports: seq<Port>, dict: map<nat, Port>) returns (r: map<nat, Port>)
    ensures r == dict + PortMap(ports)
  {
    r := dict;
    for i := 0 to |ports|
      invariant r == dict + PortMap(ports[..i])
    {
      ghost var before := r;
      r := r[ports[i].id := ports[i]];
      r := GetPortIdToPortDict(ports[i].children, r);
      assert ports[..i + 1] == ports[..i] + [ports[i]];
      PortMapSnoc(ports[..i], ports[i]);
      UpdateThenUnion(before, ports[i].id, ports[i], PortMap(ports[i].children));
      UnionAssoc(dict, PortMap(ports[..i]), map[ports[i].id := ports[i]] + PortMap(ports[i].children));
    }
    assert ports[..|ports|] == ports;
  }

  /** `getPortIdToNodeIdDict`: records `nodeId` for every port of the tree. */
  method GetPortIdToNodeIdDict(nodeId: nat, ports: seq<Port>, dict: map<nat, nat>) returns (r: map<nat, nat>)
    ensures r == dict + NodeIdMap(nodeId, ports)
    decreases ports
  {
    r := dict;
    for i := 0 to |ports|
      invariant r == dict + NodeIdMap(nodeId, ports[..i])
    {
      ghost var before := r;
      r := r[ports[i].id := nodeId];
      r := GetPortIdToNodeIdDict(nodeId, ports[i].children, r);
      assert ports[..i + 1] == ports[..i] + [ports[i]];
      NodeIdMapSnoc(nodeId, ports[..i], ports[i]);
      UpdateThenUnion(before, ports[i].id, nodeId, NodeIdMap(nodeId, ports[i].children));
      UnionAssoc(dict, NodeIdMap(nodeId, ports[..i]), map[ports[i].id := nodeId] + NodeIdMap(nodeId, ports[i].children));
    }
    assert ports[..|ports|] == ports;
  }

  /** Map union is associative. */
  lemma UnionAssoc<K, V>(a: map<K, V>, b: map<K, V>, c: map<K, V>)
    ensures a + (b + c) == (a + b) + c
  {
  }

  /** Writing one key and then a map is the union with both. */
  lemma UpdateThenUnion<K, V>(d: map<K, V>, key: K, v: V, m: map<K, V>)
    ensures d[key := v] + m == d + (map[key := v] + m)
  {
  }

  lemma {:induction false} ParentMapAppend(owner: Owner, a: seq<Port>, b: seq<Port>)
    ensures ParentMap(owner, a + b) == ParentMap(owner, a) + ParentMap(owner, b)
  {
    if a == [] {
      assert a + b == b;
    } else {
      var head := map[a[0].id := owner] + ParentMap(PortOwner(a[0]), a[0].children);
      assert (a + b)[0] == a[0] && (a + b)[1..] == a[1..] + b;
      ParentMapAppend(owner, a[1..], b);
      UnionAssoc(head, ParentMap(owner, a[1..]), ParentMap(owner, b));
    }
  }

  lemma ParentMapSnoc(owner: Owner, a: seq<Port>, p: Port)
    ensures ParentMap(owner, a + [p]) == ParentMap(owner, a) + (map[p.id := owner] + ParentMap(PortOwner(p), p.children))
  {
    ParentMapAppend(owner, a, [p]);
    assert [p][1..] == [];
    var one := map[p.id := owner] + ParentMap(PortOwner(p), p.children);
    assert ParentMap(owner, [p]) == one + map[];
    assert one + map[] == one;
  }

  lemma {:induction false} PortMapAppend(a: seq<Port>, b: seq<Port>)
    ensures PortMap(a + b) == PortMap(a) + PortMap(b)
  {
    if a == [] {
      assert a + b == b;
    } else {
      var head := map[a[0].id := a[0]] + PortMap(a[0].children);
      assert (a + b)[0] == a[0] && (a + b)[1..] == a[1..] + b;
      PortMapAppend(a[1..], b);
      UnionAssoc(head, PortMap(a[1..]), PortMap(b));
    }
  }

  lemma PortMapSnoc(a: seq<Port>, p: Port)
    ensures PortMap(a + [p]) == PortMap(a) + (map[p.id := p] + PortMap(p.children))
  {
    PortMapAppend(a, [p]);
    assert [p][1..] == [];
    var one := map[p.id := p] + PortMap(p.children);
    assert PortMap([p]) == one + map[];
    assert one + map[] == one;
  }

  lemma {:induction false} NodeIdMapAppend(nodeId: nat, a: seq<Port>, b: seq<Port>)
    ensures NodeIdMap(nodeId, a + b) == NodeIdMap(nodeId, a) + NodeIdMap(nodeId, b)
  {
    if a == [] {
      assert a + b == b;
    } else {
      var head := map[a[0].id := nodeId] + NodeIdMap(nodeId, a[0].children);
      assert (a + b)[0] == a[0] && (a + b)[1..] == a[1..] + b;
      NodeIdMapAppend(nodeId, a[1..], b);
      UnionAssoc(head, NodeIdMap(nodeId, a[1..]), NodeIdMap(nodeId, b));
    }
  }

  lemma NodeIdMapSnoc(nodeId: nat, a: seq<Port>, p: Port)
    ensures NodeIdMap(nodeId, a + [p]) == NodeIdMap(nodeId, a) + (map[p.id := nodeId] + NodeIdMap(nodeId, p.children))
  {
    NodeIdMapAppend(nodeId, a, [p]);
    assert [p][1..] == [];
    var one := map[p.id := nodeId] + NodeIdMap(nodeId, p.children);
    assert NodeIdMap(nodeId, [p]) == one + map[];
    assert one + map[] == one;
  }

  /** Each dictionary has exactly the ids of the port tree as its keys. */
  lemma {:induction false} MapKeys(owner: Owner, nodeId: nat, ports: seq<Port>)
    ensures ParentMap(owner, ports).Keys == Elems(PortsIds(ports))
    ensures PortMap(ports).Keys == Elems(PortsIds(ports))
    ensures NodeIdMap(nodeId, ports).Keys == Elems(PortsIds(ports))
    decreases ports
  {
    if ports != [] {
      MapKeys(PortOwner(ports[0]), nodeId, ports[0].children);
      MapKeys(owner, nodeId, ports[1..]);
      ElemsAppend([ports[0].id], PortsIds(ports[0].children));
      ElemsAppend(PortIds(ports[0]), PortsIds(ports[1..]));
      assert Elems([ports[0].id]) == {ports[0].id};
    }
  }

  /** Every port of the tree is recorded as owned by `nodeId`. */
  lemma {:induction false} NodeIdMapValues(nodeId: nat, ports: seq<Port>)
    ensures forall id | id in NodeIdMap(nodeId, ports) :: NodeIdMap(nodeId, ports)[id] == nodeId
  {
    if ports != [] {
      NodeIdMapValues(nodeId, ports[0].children);
      NodeIdMapValues(nodeId, ports[1..]);
    }
  }

  /** With distinct ids, the first port of a list and the ports under it
      keep their own entries: the later siblings write other keys. */
  lemma SplitDistinct(ports: seq<Port>)
    requires ports != [] && Distinct(PortsIds(ports))
    ensures Distinct(PortsIds(ports[0].children)) && Distinct(PortsIds(ports[1..]))
    ensures ports[0].id !in Elems(PortsIds(ports[0].children)) + Elems(PortsIds(ports[1..]))
    ensures Elems(PortsIds(ports[0].children)) !! Elems(PortsIds(ports[1..]))
  {
    var head := [ports[0].id];
    FreshIdsAppend(PortIds(ports[0]), PortsIds(ports[1..]), {});
    FreshIdsAppend(head, PortsIds(ports[0].children), {});
    ElemsAppend(head, PortsIds(ports[0].children));
    assert Elems(head) == {ports[0].id};
    assert PortIds(ports[0]) == head + PortsIds(ports[0].children);
  }

  /** With distinct ids, `getChildIdToParentDict` maps every port on the
      list to `owner` and every port under `ports[k]` to the same owner the
      walk from `ports[k]` alone gives it. */
  lemma {:induction false} ParentMapOwners(owner: Owner, ports: seq<Port>)
    requires Distinct(PortsIds(ports))
    decreases ports
    ensures forall k | 0 <= k < |ports| :: ports[k].id in ParentMap(owner, ports) && ParentMap(owner, ports)[ports[k].id] == owner
    ensures forall k | 0 <= k < |ports| :: SubMap(ParentMap(PortOwner(ports[k]), ports[k].children), ParentMap(owner, ports))
  {
    if ports != [] {
      SplitDistinct(ports);
      var sub := ParentMap(PortOwner(ports[0]), ports[0].children);
      var rest := ParentMap(owner, ports[1..]);
      ParentMapOwners(owner, ports[1..]);
      MapKeys(PortOwner(ports[0]), 0, ports[0].children);
      MapKeys(owner, 0, ports[1..]);
      forall k | 0 < k < |ports|
        ensures ports[k].id in ParentMap(owner, ports) && ParentMap(owner, ports)[ports[k].id] == owner
        ensures SubMap(ParentMap(PortOwner(ports[k]), ports[k].children), ParentMap(owner, ports))
      {
        assert ports[k] == ports[1..][k - 1];
      }
    }
  }

  /** The middle of a union whose later part has other keys survives. */
  lemma MiddleSubMap<K, V>(a: map<K, V>, b: map<K, V>, c: map<K, V>)
    requires b.Keys !! c.Keys
    ensures SubMap(b, a + b + c)
  {
  }

  /** With distinct ids, `getPortIdToPortDict` maps every port on the list to
      that port and keeps the entries of the ports under it. */
  lemma {:induction false} PortMapPorts(ports: seq<Port>)
    requires Distinct(PortsIds(ports))
    ensures forall k | 0 <= k < |ports| :: ports[k].id in PortMap(ports) && PortMap(ports)[ports[k].id] == ports[k]
    ensures forall k | 0 <= k < |ports| :: SubMap(PortMap(ports[k].children), PortMap(ports))
  {
    if ports != [] {
      SplitDistinct(ports);
      PortMapPorts(ports[1..]);
      MapKeys(Owner(0, ""), 0, ports[0].children);
      MapKeys(Owner(0, ""), 0, ports[1..]);
      var head := map[ports[0].id := ports[0]];
      assert PortMap(ports) == head + PortMap(ports[0].children) + PortMap(ports[1..]);
      forall k | 0 <= k < |ports|
        ensures ports[k].id in PortMap(ports) && PortMap(ports)[ports[k].id] == ports[k]
        ensures SubMap(PortMap(ports[k].children), PortMap(ports))
      {
        if k == 0 {
          MiddleSubMap(head, PortMap(ports[0].children), PortMap(ports[1..]));
        } else {
          assert ports[k] == ports[1..][k - 1];
        }
      }
    }
  }

  // ---------------------------------------------------------------------
  // Is a port group wired to one other group?

  /** The far end of a one-to-one edge seen from the port `leftId`
      (`getRightId`). */
  function GetRightId(leftId: nat, e: Edge): (r: Result<nat>)
    ensures r.Ok? <==> |e.sources| == 1 && |e.targets| == 1 && leftId in [e.sources[0].portId, e.targets[0].portId]
    ensures r.Ok? ==> multiset{leftId, r.value} == multiset{e.sources[0].portId, e.targets[0].portId}
  {
    if |e.sources| != 1 || |e.targets| != 1 then Err("Sources or targets do not have length 1")
    else if e.sources[0].portId == leftId then Ok(e.targets[0].portId)
    else if e.targets[0].portId == leftId then Ok(e.sources[0].portId)
    else Err("PortId was not found")
  }

  /** Looking back from the far end leads to the port one started from. */
  lemma GetRightIdBack(leftId: nat, e: Edge)
    requires GetRightId(leftId, e).Ok?
    ensures GetRightId(GetRightId(leftId, e).value, e) == Ok(leftId)
  {
  }

  /** `name.slice(parentName.length)`: the name without as many leading
      characters as the parent's name has, empty when the name is shorter. */
  function Suffix(name: string, parentName: string): (r: string)
    ensures |parentName| <= |name| ==> name == name[..|parentName|] + r
    ensures |parentName| > |name| ==> r == ""
  {
    if |parentName| <= |name| then name[|parentName|..] else ""
  }

  /** What aggregation reads and never writes: the owner, port and owning
      node of every port id, and the suffix comparator. */
  datatype Lookups = Lookups(parentOf: map<nat, Owner>, portOf: map<nat, Port>, nodeOf: map<nat, nat>,
                             rule: SuffixRule)

  /** How one member port stands: wired one-to-one to a port whose owner is
      `right` with a matching suffix, not wired so, or a lookup that throws. */
  datatype Verdict = Linked(right: Owner) | Unlinked | Broken(msg: string)

  /** The verdict on a member port once the far end of its edge is known:
      the far port must be known, both owners must be known, and the two
      suffixes must agree under the comparator. */
  function Judge(port: Port, rightId: nat, lk: Lookups): (v: Verdict)
    ensures v.Linked? ==> rightId in lk.portOf && port.id in lk.parentOf && rightId in lk.parentOf
    ensures v.Linked? ==> v.right == lk.parentOf[rightId]
  {
    if rightId !in lk.portOf then Broken("Cannot read the name of port " + Text.NatToDecimal(rightId))
    else if port.id !in lk.parentOf then Broken("leftParent of port undefined " + Text.NatToDecimal(port.id))
    else if rightId !in lk.parentOf then Broken("rightParent of port undefined " + Text.NatToDecimal(rightId))
    else
      var leftSuffix := Suffix(port.name, lk.parentOf[port.id].name);
      var rightSuffix := Suffix(lk.portOf[rightId].name, lk.parentOf[rightId].name);
      if SuffixesAreEqual(lk.rule, leftSuffix, rightSuffix) then Linked(lk.parentOf[rightId]) else Unlinked
  }

  /** The verdict on one member port, in the order the checks are made: no
      edge or an edge that is not one-to-one leaves the port unlinked, an
      edge that does not touch the port throws. */
  function Classify(port: Port, edgeOf: map<nat, Edge>, lk: Lookups): (v: Verdict)
    ensures v.Linked? ==> port.id in edgeOf && GetRightId(port.id, edgeOf[port.id]).Ok?
    ensures v.Linked? ==> v == Judge(port, GetRightId(port.id, edgeOf[port.id]).value, lk)
  {
    if port.id !in edgeOf then Unlinked
    else
      var e := edgeOf[port.id];
      if |e.sources| != 1 || |e.targets| != 1 then Unlinked
      else
        match GetRightId(port.id, e)
        case Err(m) => Broken(m)
        case Ok(rightId) => Judge(port, rightId, lk)
  }

  /** Every port before position `k` is linked. */
  predicate LinkedBefore(ports: seq<Port>, edgeOf: map<nat, Edge>, lk: Lookups, k: nat)
    requires k <= |ports|
  {
    forall j | 0 <= j < k :: Classify(ports[j], edgeOf, lk).Linked?
  }

  /** The first port that is not linked is at `i`, so no later position has
      every port before it linked. */
  lemma StopsAt(ports: seq<Port>, edgeOf: map<nat, Edge>, lk: Lookups, i: nat)
    requires i < |ports| && LinkedBefore(ports, edgeOf, lk, i) && !Classify(ports[i], edgeOf, lk).Linked?
    ensures forall k | i < k <= |ports| :: !LinkedBefore(ports, edgeOf, lk, k)
  {
  }

  /** `allPortsAreConnected` as written: the ports are examined in order and
      the first one that is not linked decides: a lookup failure throws,
      anything else gives null. When every port is linked the result is the
      far owner of the LAST port, whatever the owners of the others are. */
  method AllPortsAreConnected(ports: seq<Port>, edgeOf: map<nat, Edge>, lk: Lookups) returns (r: Result<Option<Owner>>)
    ensures r.Err? ==> exists k | 0 <= k < |ports| ::
                         Classify(ports[k], edgeOf, lk) == Broken(r.msg) && LinkedBefore(ports, edgeOf, lk, k)
    ensures (exists k | 0 <= k < |ports| :: Classify(ports[k], edgeOf, lk).Broken? && LinkedBefore(ports, edgeOf, lk, k))
            ==> r.Err?
    ensures (r.Ok? && r.value.Some?) <==> ports != [] && LinkedBefore(ports, edgeOf, lk, |ports|)
    ensures r.Ok? && r.value.Some? ==> r.value.value == Classify(ports[|ports| - 1], edgeOf, lk).right
  {
    if |ports| == 0 {
      return Ok(None);
    }
    var rightParent := Owner(0, "");
    for i := 0 to |ports|
      invariant LinkedBefore(ports, edgeOf, lk, i)
      invariant i > 0 ==> rightParent == Classify(ports[i - 1], edgeOf, lk).right
    {
      var port := ports[i];
      if port.id !in edgeOf {
        StopsAt(ports, edgeOf, lk, i);
        return Ok(None);
      }
      var edge := edgeOf[port.id];
      if |edge.sources| != 1 || |edge.targets| != 1 {
        StopsAt(ports, edgeOf, lk, i);
        return Ok(None);
      }
      var sourceId := edge.sources[0].portId;
      var targetId := edge.targets[0].portId;
      var rightId: nat;
      if sourceId == port.id {
        rightId := targetId;
      } else if targetId == port.id {
        rightId := sourceId;
      } else {
        StopsAt(ports, edgeOf, lk, i);
        return Err("PortId was not found");
      }
      assert GetRightId(port.id, edge) == Ok(rightId);
      if rightId !in lk.portOf {
        StopsAt(ports, edgeOf, lk, i);
        return Err("Cannot read the name of port " + Text.NatToDecimal(rightId));
      }
      var rightName := lk.portOf[rightId].name;
      if port.id !in lk.parentOf {
        StopsAt(ports, edgeOf, lk, i);
        return Err("leftParent of port undefined " + Text.NatToDecimal(port.id));
      }
      if rightId !in lk.parentOf {
        StopsAt(ports, edgeOf, lk, i);
        return Err("rightParent of port undefined " + Text.NatToDecimal(rightId));
      }
      var leftParent := lk.parentOf[port.id];
      rightParent := lk.parentOf[rightId];
      var leftSuffix := Suffix(port.name, leftParent.name);
      var rightSuffix := Suffix(rightName, rightParent.name);
      if !SuffixesAreEqual(lk.rule, leftSuffix, rightSuffix) {
        StopsAt(ports, edgeOf, lk, i);
        return Ok(None);
      }
    }
    return Ok(Some(rightParent));
  }

  /** Every port is linked, and all to the same owner `o`. */
  predicate AllLinkedTo(ports: seq<Port>, edgeOf: map<nat, Edge>, lk: Lookups, o: Owner)
  {
    ports != [] && forall k | 0 <= k < |ports| :: Classify(ports[k], edgeOf, lk) == Linked(o)
  }

  /** The members of the group are wired to the members of one other group. */
  predicate OneGroup(ports: seq<Port>, edgeOf: map<nat, Edge>, lk: Lookups)
  {
    ports != [] && Classify(ports[0], edgeOf, lk).Linked? && AllLinkedTo(ports, edgeOf, lk, Classify(ports[0], edgeOf, lk).right)
  }

  /** Two members of group `p`, wired to members of two DIFFERENT groups `q`
      and `r` with matching suffixes, are both linked: `allPortsAreConnected`
      as written accepts them and answers `r`, so the edge to `q` is deleted
      and replaced by an edge to `r`. */
  lemma MixedGroupsAccepted()
    ensures var lk := Lookups(map[1 := Owner(0, "p"), 2 := Owner(0, "p"), 11 := Owner(10, "q"), 21 := Owner(20, "r")],
                              map[11 := Port(11, "q_x", OUTPUT, EAST, 0, []), 21 := Port(21, "r_y", OUTPUT, EAST, 0, [])],
                              map[], ExactSuffix);
            var edgeOf := map[1 := Edge(30, "x", [Endpoint(5, 1)], [Endpoint(6, 11)]),
                              2 := Edge(31, "y", [Endpoint(5, 2)], [Endpoint(7, 21)])];
            var ports := [Port(1, "p_x", INPUT, WEST, 1, []), Port(2, "p_y", INPUT, WEST, 2, [])];
            && LinkedBefore(ports, edgeOf, lk, |ports|)
            && Classify(ports[0], edgeOf, lk) == Linked(Owner(10, "q"))
            && Classify(ports[1], edgeOf, lk) == Linked(Owner(20, "r"))
            && !OneGroup(ports, edgeOf, lk)
  {
    var lk := Lookups(map[1 := Owner(0, "p"), 2 := Owner(0, "p"), 11 := Owner(10, "q"), 21 := Owner(20, "r")],
                      map[11 := Port(11, "q_x", OUTPUT, EAST, 0, []), 21 := Port(21, "r_y", OUTPUT, EAST, 0, [])],
                      map[], ExactSuffix);
    var edgeOf := map[1 := Edge(30, "x", [Endpoint(5, 1)], [Endpoint(6, 11)]),
                      2 := Edge(31, "y", [Endpoint(5, 2)], [Endpoint(7, 21)])];
    var ports := [Port(1, "p_x", INPUT, WEST, 1, []), Port(2, "p_y", INPUT, WEST, 2, [])];
    assert Suffix("p_x", "p") == "_x" && Suffix("q_x", "q") == "_x";
    assert Suffix("p_y", "p") == "_y" && Suffix("r_y", "r") == "_y";
    assert Classify(ports[0], edgeOf, lk) == Linked(Owner(10, "q"));
    assert Classify(ports[1], edgeOf, lk) == Linked(Owner(20, "r"));
  }

  /** `allPortsAreConnected` with the check its documentation describes: the
      answer is an owner only when every member is linked to that same
      owner. The errors are those of the unchecked version. */
  method AllPortsAreConnectedToOne(ports: seq<Port>, edgeOf: map<nat, Edge>, lk: Lookups)
    returns (r: Result<Option<Owner>>)
    ensures r.Err? ==> exists k | 0 <= k < |ports| ::
                         Classify(ports[k], edgeOf, lk) == Broken(r.msg) && LinkedBefore(ports, edgeOf, lk, k)
    ensures (exists k | 0 <= k < |ports| :: Classify(ports[k], edgeOf, lk).Broken? && LinkedBefore(ports, edgeOf, lk, k))
            ==> r.Err?
    ensures (r.Ok? && r.value.Some?) <==> OneGroup(ports, edgeOf, lk)
    ensures r.Ok? && r.value.Some? ==> AllLinkedTo(ports, edgeOf, lk, r.value.value)
  {
    r := AllPortsAreConnected(ports, edgeOf, lk);
    if r.Ok? && r.value.Some? {
      var same := SameOwner(ports, edgeOf, lk, r.value.value);
      if !same {
        r := Ok(None);
      }
    }
  }

  /** Whether every member, all of them linked, is linked to `o`. */
  method SameOwner(ports: seq<Port>, edgeOf: map<nat, Edge>, lk: Lookups, o: Owner) returns (b: bool)
    requires LinkedBefore(ports, edgeOf, lk, |ports|)
    ensures b <==> forall k | 0 <= k < |ports| :: Classify(ports[k], edgeOf, lk) == Linked(o)
  {
    b := true;
    for i := 0 to |ports|
      invariant b <==> forall k | 0 <= k < i :: Classify(ports[k], edgeOf, lk) == Linked(o)
    {
      b := b && Classify(ports[i], edgeOf, lk).right == o;
    }
  }

  // ---------------------------------------------------------------------
  // Replacing the member edges

  /** The edge `createAggregatedEdge` builds between a group port and the
      port `rightId` of the other group: the group port is the source when
      it is an INPUT and the target when it is an OUTPUT; the edge takes the
      group port's name. */
  function AggregatedEdge(id: nat, left: Port, rightId: nat, nodeOf: map<nat, nat>): Edge
    requires left.id in nodeOf && rightId in nodeOf
  {
    var near := Endpoint(nodeOf[left.id], left.id);
    var far := Endpoint(nodeOf[rightId], rightId);
    if left.direction == INPUT then Edge(id, left.name, [near], [far]) else Edge(id, left.name, [far], [near])
  }

  /** The new edge is one-to-one between the two group ports, seen from
      either end, and it runs from an INPUT group port outward. */
  lemma AggregatedEdgeLinks(id: nat, left: Port, rightId: nat, nodeOf: map<nat, nat>)
    requires left.id in nodeOf && rightId in nodeOf
    ensures GetRightId(left.id, AggregatedEdge(id, left, rightId, nodeOf)) == Ok(rightId)
    ensures GetRightId(rightId, AggregatedEdge(id, left, rightId, nodeOf)) == Ok(left.id)
    ensures AggregatedEdge(id, left, rightId, nodeOf).sources[0].portId == if left.direction == INPUT then left.id else rightId
    ensures AggregatedEdge(id, left, rightId, nodeOf).targets[0].portId == if left.direction == INPUT then rightId else left.id
  {
  }

  /** Once the group port points at the new edge, the next level up sees it
      exactly as wired one-to-one to the other group port. */
  lemma AggregatedEdgeSeenAbove(id: nat, left: Port, rightId: nat, edgeOf: map<nat, Edge>, lk: Lookups)
    requires left.id in lk.nodeOf && rightId in lk.nodeOf
    ensures var e := AggregatedEdge(id, left, rightId, lk.nodeOf);
            Classify(left, edgeOf[left.id := e][rightId := e], lk) == Judge(left, rightId, lk)
  {
    AggregatedEdgeLinks(id, left, rightId, lk.nodeOf);
  }

  /** The ids of the edges the members of a group point at. */
  function MemberEdgeIds(ports: seq<Port>, edgeOf: map<nat, Edge>): set<nat>
  {
    set k | 0 <= k < |ports| && ports[k].id in edgeOf :: edgeOf[ports[k].id].id
  }

  /** The loop of `aggregateHierarchicalPortEdgesRec` that marks the edge
      of every member for deletion; every member has an edge. */
  method MarkMemberEdges(ports: seq<Port>, edgeOf: map<nat, Edge>, marked: set<nat>) returns (r: set<nat>)
    requires forall k | 0 <= k < |ports| :: ports[k].id in edgeOf
    ensures r == marked + MemberEdgeIds(ports, edgeOf)
  {
    r := marked;
    for i := 0 to |ports|
      invariant r == marked + MemberEdgeIds(ports[..i], edgeOf)
    {
      assert MemberEdgeIds(ports[..i + 1], edgeOf) == MemberEdgeIds(ports[..i], edgeOf) + {edgeOf[ports[i].id].id} by {
        assert forall k | 0 <= k < i :: ports[..i + 1][k] == ports[..i][k];
      }
      r := r + {edgeOf[ports[i].id].id};
    }
    assert ports[..|ports|] == ports;
  }

  /** From the edge list `e0` and the counter value `c0` to `e` and `c`:
      edges were only appended, one per id drawn, with the drawn ids in
      order. */
  predicate Appended(e0: seq<Edge>, c0: nat, e: seq<Edge>, c: nat)
  {
    && |e0| <= |e| && e[..|e0|] == e0
    && c == c0 + (|e| - |e0|)
    && (forall k | |e0| <= k < |e| :: e[k].id == c0 + (k - |e0|))
  }

  lemma AppendedTrans(e0: seq<Edge>, c0: nat, e1: seq<Edge>, c1: nat, e: seq<Edge>, c: nat)
    requires Appended(e0, c0, e1, c1) && Appended(e1, c1, e, c)
    ensures Appended(e0, c0, e, c)
  {
    assert e[..|e0|] == e[..|e1|][..|e0|];
    forall k | |e0| <= k < |e| ensures e[k].id == c0 + (k - |e0|) {
      if k < |e1| {
        assert e[k] == e1[k];
      }
    }
  }

  /** Appending as above, with the node's `maxId` set to the last drawn id
      when any was drawn. */
  predicate Grown(e0: seq<Edge>, c0: nat, m0: Option<int>, e: seq<Edge>, c: nat, m: Option<int>)
  {
    Appended(e0, c0, e, c) && (if |e| == |e0| then m == m0 else m == Some(c - 1))
  }

  /** Drawing no id is growth. */
  lemma GrownNone(e: seq<Edge>, c: nat, m: Option<int>)
    ensures Grown(e, c, m, e, c, m)
  {
    assert e[..|e|] == e;
  }

  lemma GrownTrans(e0: seq<Edge>, c0: nat, m0: Option<int>, e1: seq<Edge>, c1: nat, m1: Option<int>,
                   e: seq<Edge>, c: nat, m: Option<int>)
    requires Grown(e0, c0, m0, e1, c1, m1) && Grown(e1, c1, m1, e, c, m)
    ensures Grown(e0, c0, m0, e, c, m)
  {
    AppendedTrans(e0, c0, e1, c1, e, c);
  }

  /** Growth keeps every edge within the node's bound, which ends at or
      above where it started and below the counter. */
  lemma GrownWithin(e0: seq<Edge>, c0: nat, m0: Option<int>, e: seq<Edge>, c: nat, m: Option<int>)
    requires Grown(e0, c0, m0, e, c, m)
    requires m0.Some? && EdgesWithin(e0, m0.value) && m0.value < c0
    ensures m.Some? && m0.value <= m.value < c && EdgesWithin(e, m.value)
  {
    forall k | 0 <= k < |e| ensures e[k].id <= m.value {
      if k < |e0| {
        assert e[k] == e0[k];
      }
    }
  }

  /** The edges not marked for deletion, in their order (`edges.filter`). */
  function FilterEdges(es: seq<Edge>, drop: set<nat>): (r: seq<Edge>)
    ensures forall k | 0 <= k < |r| :: r[k] in es && r[k].id !in drop
    ensures forall k | 0 <= k < |es| :: es[k].id !in drop ==> es[k] in r
    ensures drop == {} ==> r == es
  {
    if es == [] then []
    else (if es[0].id in drop then [] else [es[0]]) + FilterEdges(es[1..], drop)
  }

  // ---------------------------------------------------------------------
  // The pass as a function of values: what the recursion computes, port by
  // port, from the state it shares.

  /** The shared state of one pass: the edge list, the port-to-edge
      dictionary, the ids marked for deletion, the node's `maxId` and the
      id counter. */
  datatype Pass = Pass(edges: seq<Edge>, edgeOf: map<nat, Edge>, toDelete: set<nat>, maxId: Option<int>,
                       counter: nat)

  /** Some member before the first unlinked one makes a lookup throw. */
  predicate Breaks(ports: seq<Port>, edgeOf: map<nat, Edge>, lk: Lookups)
  {
    exists k | 0 <= k < |ports| :: Classify(ports[k], edgeOf, lk).Broken? && LinkedBefore(ports, edgeOf, lk, k)
  }

  /** The step for one group port once its members were handled: None when
      a lookup throws; the state unchanged when the members are not wired
      to one other group; otherwise the member edges are marked, one edge
      between the two group ports is appended and recorded for both, and
      `maxId` becomes its id. */
  function AtPort(port: Port, s: Pass, lk: Lookups): Option<Pass>
  {
    if Breaks(port.children, s.edgeOf, lk) then None
    else if !OneGroup(port.children, s.edgeOf, lk) then Some(s)
    else
      var o := Classify(port.children[0], s.edgeOf, lk).right;
      if port.id !in lk.nodeOf || o.id !in lk.nodeOf then None
      else
        var e := AggregatedEdge(s.counter, port, o.id, lk.nodeOf);
        Some(Pass(s.edges + [e], s.edgeOf[port.id := e][o.id := e],
                  s.toDelete + MemberEdgeIds(port.children, s.edgeOf), Some(s.counter), s.counter + 1))
  }

  /** The recursion over one port list: each port's members first, then
      the port itself, then the later ports. Every port of every child is
      tested, its top-level ports included: the source skips a list only
      when it is the parent's own port list, and the recursion is only ever
      given a child's ports or a port's members. */
  function PortsPass(ports: seq<Port>, s: Pass, lk: Lookups): Option<Pass>
    decreases ports
  {
    if ports == [] then Some(s)
    else
      match PortsPass(ports[0].children, s, lk)
      case None => None
      case Some(s1) =>
        match AtPort(ports[0], s1, lk)
        case None => None
        case Some(s2) => PortsPass(ports[1..], s2, lk)
  }

  /** The pass over the ports of every child, in order. */
  function ChildrenPass(children: seq<Node>, s: Pass, lk: Lookups): Option<Pass>
  {
    if children == [] then Some(s)
    else
      match PortsPass(children[0].ports, s, lk)
      case None => None
      case Some(s1) => ChildrenPass(children[1..], s1, lk)
  }

  /** The steps only append edges with fresh ids and only add marks. */
  lemma AtPortGrows(port: Port, s: Pass, lk: Lookups)
    requires AtPort(port, s, lk).Some?
    ensures var t := AtPort(port, s, lk).value;
            Grown(s.edges, s.counter, s.maxId, t.edges, t.counter, t.maxId) && s.toDelete <= t.toDelete
    ensures var t := AtPort(port, s, lk).value;
            |t.edges| == |s.edges| ==> t.toDelete == s.toDelete
  {
    var t := AtPort(port, s, lk).value;
    if t != s {
      assert t.edges[..|s.edges|] == s.edges;
    }
  }

  lemma {:induction false} PortsPassGrows(ports: seq<Port>, s: Pass, lk: Lookups)
    requires PortsPass(ports, s, lk).Some?
    ensures var t := PortsPass(ports, s, lk).value;
            Grown(s.edges, s.counter, s.maxId, t.edges, t.counter, t.maxId) && s.toDelete <= t.toDelete
    decreases ports
  {
    if ports != [] {
      var s1 := PortsPass(ports[0].children, s, lk).value;
      PortsPassGrows(ports[0].children, s, lk);
      var s2 := AtPort(ports[0], s1, lk).value;
      AtPortGrows(ports[0], s1, lk);
      PortsPassGrows(ports[1..], s2, lk);
      var t := PortsPass(ports[1..], s2, lk).value;
      GrownTrans(s.edges, s.counter, s.maxId, s1.edges, s1.counter, s1.maxId, s2.edges, s2.counter, s2.maxId);
      GrownTrans(s.edges, s.counter, s.maxId, s2.edges, s2.counter, s2.maxId, t.edges, t.counter, t.maxId);
    }
  }

  /** A group port whose members are wired to one other group gets an edge
      to it: every member edge is marked for deletion, the new edge is the
      last one and the group port is, seen from the level above, wired one
      to one to the other group's port. */
  lemma AtPortLinks(port: Port, s: Pass, lk: Lookups)
    requires AtPort(port, s, lk).Some? && OneGroup(port.children, s.edgeOf, lk)
    ensures var t := AtPort(port, s, lk).value;
            var o := Classify(port.children[0], s.edgeOf, lk).right;
            && (forall k | 0 <= k < |port.children| :: s.edgeOf[port.children[k].id].id in t.toDelete)
            && port.id in t.edgeOf && t.edges[|t.edges| - 1] == t.edgeOf[port.id]
            && GetRightId(port.id, t.edgeOf[port.id]) == Ok(o.id)
            && Classify(port, t.edgeOf, lk) == Judge(port, o.id, lk)
  {
    var o := Classify(port.children[0], s.edgeOf, lk).right;
    var e := AggregatedEdge(s.counter, port, o.id, lk.nodeOf);
    var t := AtPort(port, s, lk).value;
    forall k | 0 <= k < |port.children| ensures s.edgeOf[port.children[k].id].id in t.toDelete {
      assert Classify(port.children[k], s.edgeOf, lk).Linked?;
    }
    AggregatedEdgeLinks(s.counter, port, o.id, lk.nodeOf);
    AggregatedEdgeSeenAbove(s.counter, port, o.id, s.edgeOf, lk);
    if o.id == port.id {
      assert t.edgeOf == s.edgeOf[port.id := e];
    }
  }

  /** Members that are not all wired to one other group leave the state as
      it was, unless a lookup throws. */
  lemma AtPortIdle(port: Port, s: Pass, lk: Lookups)
    requires !OneGroup(port.children, s.edgeOf, lk) && !Breaks(port.children, s.edgeOf, lk)
    ensures AtPort(port, s, lk) == Some(s)
  {
  }

  /** The ids of the ports some edge of the list touches. */
  function TouchedPorts(edges: seq<Edge>): (r: set<nat>)
    ensures forall p :: p in r <==> ConcatSplit.LastEdgeOf(edges, p).Some?
  {
    if edges == [] then {}
    else
      var e := edges[|edges| - 1];
      var r := TouchedPorts(edges[..|edges| - 1]) + (set p | p in PortIdsOf(e.sources) + PortIdsOf(e.targets));
      assert forall k | 0 <= k < |edges| - 1 :: edges[..|edges| - 1][k] == edges[k];
      r
  }

  /** `getPortToEdgeDict` as a value: every touched port mapped to the last
      edge that touches it. */
  function EdgeDict(edges: seq<Edge>): map<nat, Edge>
  {
    map p | p in TouchedPorts(edges) :: ConcatSplit.LastEdgeOf(edges, p).value
  }

  /** The port dictionary for a node: its own ports, then those of every
      child in order, a later entry replacing an earlier one. */
  function PortMaps(n: Node): map<nat, Port>
  {
    ChildPortsInto(PortMap(n.ports), n.children)
  }

  function ChildPortsInto(d: map<nat, Port>, children: seq<Node>): map<nat, Port>
    decreases children
  {
    if children == [] then d else ChildPortsInto(d + PortMap(children[0].ports), children[1..])
  }

  /** The owning-node dictionary for a node, in the same order. */
  function NodeIdMaps(n: Node): map<nat, nat>
  {
    ChildNodeIdsInto(NodeIdMap(n.id, n.ports), n.children)
  }

  function ChildNodeIdsInto(d: map<nat, nat>, children: seq<Node>): map<nat, nat>
    decreases children
  {
    if children == [] then d else ChildNodeIdsInto(d + NodeIdMap(children[0].id, children[0].ports), children[1..])
  }

  /** The two loops of `aggregateHierarchicalPortEdges` that fill the port
      and owning-node dictionaries from the node and its children. */
  method NodeLookups(node: Node) returns (portOf: map<nat, Port>, nodeOf: map<nat, nat>)
    ensures portOf == PortMaps(node) && nodeOf == NodeIdMaps(node)
  {
    portOf := GetPortIdToPortDict(node.ports, map[]);
    nodeOf := GetPortIdToNodeIdDict(node.id, node.ports, map[]);
    assert map[] + PortMap(node.ports) == PortMap(node.ports);
    assert map[] + NodeIdMap(node.id, node.ports) == NodeIdMap(node.id, node.ports);
    for i := 0 to |node.children|
      invariant ChildPortsInto(portOf, node.children[i..]) == PortMaps(node)
      invariant ChildNodeIdsInto(nodeOf, node.children[i..]) == NodeIdMaps(node)
    {
      assert node.children[i..][0] == node.children[i] && node.children[i..][1..] == node.children[i + 1..];
      portOf := GetPortIdToPortDict(node.children[i].ports, portOf);
      nodeOf := GetPortIdToNodeIdDict(node.children[i].id, node.children[i].ports, nodeOf);
    }
  }

  /** The dictionary `getPortToEdgeDict` builds is this value. */
  lemma EdgeDictIs(edges: seq<Edge>, d: map<nat, Edge>)
    requires forall id :: id in d <==> ConcatSplit.LastEdgeOf(edges, id).Some?
    requires forall id | id in d :: d[id] == ConcatSplit.LastEdgeOf(edges, id).value
    ensures d == EdgeDict(edges)
  {
  }

  /** Where the pass over a node starts from. */
  function StartPass(node: Node, counter: nat): Pass
  {
    Pass(node.edges, EdgeDict(node.edges), {}, node.maxId, counter)
  }

  /** The state the recursion of `aggregateHierarchicalPortEdges` shares:
      the edge list of the node (whichever of `edges`/`_edges` it uses),
      the port-to-edge dictionary, the ids marked for deletion and the
      node's `maxId`. */
  class Aggregator {
    var edges: seq<Edge>
    var edgeOf: map<nat, Edge>
    var toDelete: set<nat>
    var maxId: Option<int>
    const counter: LObjects.IdCounter
    const lk: Lookups

    /** The shared state as a value. */
    ghost function State(): Pass
      reads this, counter
    {
      Pass(edges, edgeOf, toDelete, maxId, counter.id)
    }

    constructor (counter: LObjects.IdCounter, lk: Lookups, edges: seq<Edge>, edgeOf: map<nat, Edge>, maxId: Option<int>)
      ensures this.counter == counter && this.lk == lk
      ensures this.edges == edges && this.edgeOf == edgeOf && this.toDelete == {} && this.maxId == maxId
    {
      this.counter := counter;
      this.lk := lk;
      this.edges := edges;
      this.edgeOf := edgeOf;
      this.toDelete := {};
      this.maxId := maxId;
    }

    /** `createAggregatedEdge`: both group ports must have a known owning
        node (checked before an id is drawn); the new edge is returned and
        both group ports point at it in the dictionary. */
    method CreateAggregatedEdge(leftPort: Port, rightPort: Owner) returns (r: Result<Edge>)
      modifies this, counter
      ensures edges == old(edges) && toDelete == old(toDelete) && maxId == old(maxId)
      ensures r.Err? <==> leftPort.id !in lk.nodeOf || rightPort.id !in lk.nodeOf
      ensures r.Err? ==> counter.id == old(counter.id) && edgeOf == old(edgeOf)
      ensures r.Ok? ==> counter.id == old(counter.id) + 1
      ensures r.Ok? ==> r.value == AggregatedEdge(old(counter.id), leftPort, rightPort.id, lk.nodeOf)
      ensures r.Ok? ==> edgeOf == old(edgeOf)[leftPort.id := r.value][rightPort.id := r.value]
    {
      if leftPort.id !in lk.nodeOf || rightPort.id !in lk.nodeOf {
        return Err("Node id must be defined");
      }
      var leftNodeId := lk.nodeOf[leftPort.id];
      var rightNodeId := lk.nodeOf[rightPort.id];
      var newEdge := LObjects.CreateLEdge(counter, leftPort.name);
      if leftPort.direction == INPUT {
        newEdge := newEdge.(sources := newEdge.sources + [Endpoint(leftNodeId, leftPort.id)],
                            targets := newEdge.targets + [Endpoint(rightNodeId, rightPort.id)]);
      } else {
        newEdge := newEdge.(sources := newEdge.sources + [Endpoint(rightNodeId, rightPort.id)],
                            targets := newEdge.targets + [Endpoint(leftNodeId, leftPort.id)]);
      }
      edgeOf := edgeOf[leftPort.id := newEdge];
      edgeOf := edgeOf[rightPort.id := newEdge];
      return Ok(newEdge);
    }

    /** The body of the loop of `aggregateHierarchicalPortEdgesRec` for one
        port, after its own members were handled: when its members are
        wired to one other group, their edges are marked for deletion, one
        edge between the two group ports is appended and `maxId` becomes the
        new edge's id; otherwise nothing changes. */
    method AggregateAt(port: Port) returns (r: Result<()>)
      modifies this, counter
      ensures Grown(old(edges), old(counter.id), old(maxId), edges, counter.id, maxId)
      ensures old(toDelete) <= toDelete
      ensures r.Ok? <==> AtPort(port, old(State()), lk).Some?
      ensures r.Ok? ==> State() == AtPort(port, old(State()), lk).value
    {
      var other := AllPortsAreConnectedToOne(port.children, edgeOf, lk);
      if other.Err? {
        r := Err(other.msg);
      } else if other.value.None? {
        r := Ok(());
      } else {
        r := LinkGroup(port, other.value.value);
      }
    }

    /** The members of `port` are wired to the group `o`: their edges are
        marked and the edge between the two group ports is appended. */
    method LinkGroup(port: Port, o: Owner) returns (r: Result<()>)
      modifies this, counter
      requires OneGroup(port.children, edgeOf, lk) && o == Classify(port.children[0], edgeOf, lk).right
      ensures Grown(old(edges), old(counter.id), old(maxId), edges, counter.id, maxId)
      ensures old(toDelete) <= toDelete
      ensures r.Ok? <==> AtPort(port, old(State()), lk).Some?
      ensures r.Ok? ==> State() == AtPort(port, old(State()), lk).value
    {
      ghost var s0 := State();
      assert !Breaks(port.children, edgeOf, lk);
      assert forall k | 0 <= k < |port.children| :: Classify(port.children[k], edgeOf, lk).Linked?;
      toDelete := MarkMemberEdges(port.children, edgeOf, toDelete);
      r := Ok(());
      var newEdge := CreateAggregatedEdge(port, o);
      if newEdge.Err? {
        r := Err(newEdge.msg);
        GrownNone(edges, counter.id, maxId);
      } else {
        edges := edges + [newEdge.value];
        maxId := Some(counter.id - 1);
        assert State() == AtPort(port, s0, lk).value;
        AtPortGrows(port, s0, lk);
      }
    }

    /** `aggregateHierarchicalPortEdgesRec` over one port list: each port's
        members first, then the port itself. */
    method Aggregate(ports: seq<Port>) returns (r: Result<()>)
      modifies this, counter
      decreases ports
      ensures Grown(old(edges), old(counter.id), old(maxId), edges, counter.id, maxId)
      ensures old(toDelete) <= toDelete
      ensures r.Ok? && |edges| == |old(edges)| ==> toDelete == old(toDelete)
      ensures r.Ok? <==> PortsPass(ports, old(State()), lk).Some?
      ensures r.Ok? ==> State() == PortsPass(ports, old(State()), lk).value
    {
      for i := 0 to |ports|
        invariant Grown(old(edges), old(counter.id), old(maxId), edges, counter.id, maxId)
        invariant old(toDelete) <= toDelete
        invariant |edges| == |old(edges)| ==> toDelete == old(toDelete)
        invariant PortsPass(ports, old(State()), lk) == PortsPass(ports[i..], State(), lk)
      {
        assert ports[i..][0] == ports[i] && ports[i..][1..] == ports[i + 1..];
        ghost var e1, c1, m1 := edges, counter.id, maxId;
        var sub := Aggregate(ports[i].children);
        GrownTrans(old(edges), old(counter.id), old(maxId), e1, c1, m1, edges, counter.id, maxId);
        if sub.Err? {
          return sub;
        }
        ghost var e2, c2, m2 := edges, counter.id, maxId;
        ghost var s2 := State();
        sub := AggregateAt(ports[i]);
        GrownTrans(old(edges), old(counter.id), old(maxId), e2, c2, m2, edges, counter.id, maxId);
        if sub.Err? {
          return sub;
        }
        AtPortGrows(ports[i], s2, lk);
      }
      return Ok(());
    }
  }

  /** What `aggregateHierarchicalPortEdges` makes of a node while the
      counter goes from `c0` to `c1`: a node without edges or children is
      left alone; otherwise the pass over its children succeeds, the node
      keeps the edges the pass left minus the ones it dropped, takes the
      `maxId` the pass reached, and the counter ends where the pass did. */
  ghost predicate EdgesAggregated(node: Node, r: Node, rule: SuffixRule, parentOf: map<nat, Owner>, c0: nat, c1: int)
  {
    if node.edgesAt.Absent? || node.childrenAt.Absent? then r == node && c1 == c0
    else
      var pass := ChildrenPass(node.children, StartPass(node, c0),
                               Lookups(parentOf, PortMaps(node), NodeIdMaps(node), rule));
      && pass.Some?
      && r == node.(edges := FilterEdges(pass.value.edges, pass.value.toDelete), maxId := pass.value.maxId)
      && c1 == pass.value.counter
  }

  /** The aggregation of `node` succeeds: the node has no edges or no
      children, or the pass over its children's ports finds every owner. */
  ghost predicate Aggregable(node: Node, rule: SuffixRule, parentOf: map<nat, Owner>, c0: nat)
  {
    || node.edgesAt.Absent? || node.childrenAt.Absent?
    || ChildrenPass(node.children, StartPass(node, c0), Lookups(parentOf, PortMaps(node), NodeIdMaps(node), rule)).Some?
  }

  /** `aggregateHierarchicalPortEdges` for one node: nothing happens when the
      node has no edges or no children (visible or hidden); otherwise the
      edges of the ports of every child are aggregated and the marked edges
      are dropped from the edge field in use. Only the edges and `maxId`
      change; new edges take fresh ids; the `checkMaxId` invariant is kept;
      when no id was drawn the node is unchanged. */
  method AggregateHierarchicalPortEdges(counter: LObjects.IdCounter, node: Node, rule: SuffixRule,
                                        parentOf: map<nat, Owner>) returns (r: Result<Node>)
    modifies counter
    ensures node.edgesAt.Absent? || node.childrenAt.Absent? ==> r == Ok(node) && counter.id == old(counter.id)
    ensures counter.id >= old(counter.id)
    ensures r.Ok? ==> r.value == node.(edges := r.value.edges, maxId := r.value.maxId)
    ensures r.Ok? && counter.id == old(counter.id) ==> r.value == node
    ensures r.Ok? ==> forall k | 0 <= k < |r.value.edges| ::
                        r.value.edges[k] in node.edges || old(counter.id) <= r.value.edges[k].id < counter.id
    ensures r.Ok? && CheckMaxId(node) && node.maxId.value < old(counter.id) ==>
              CheckMaxId(r.value) && r.value.maxId.value < counter.id
    ensures !node.edgesAt.Absent? && !node.childrenAt.Absent? ==>
              var pass := ChildrenPass(node.children, StartPass(node, old(counter.id)),
                                       Lookups(parentOf, PortMaps(node), NodeIdMaps(node), rule));
              && (r.Ok? <==> pass.Some?)
              && (r.Ok? ==> && r.value.edges == FilterEdges(pass.value.edges, pass.value.toDelete)
                            && r.value.maxId == pass.value.maxId && counter.id == pass.value.counter)
    ensures r.Ok? ==> EdgesAggregated(node, r.value, rule, parentOf, old(counter.id), counter.id)
    ensures r.Ok? <==> Aggregable(node, rule, parentOf, old(counter.id))
  {
    if node.edgesAt.Absent? || node.childrenAt.Absent? {
      return Ok(node);
    }
    var edgeOf := ConcatSplit.GetPortToEdgeDict(node.edges);
    EdgeDictIs(node.edges, edgeOf);
    var portOf, nodeOf := NodeLookups(node);
    var lk := Lookups(parentOf, portOf, nodeOf, rule);
    var agg := new Aggregator(counter, lk, node.edges, edgeOf, node.maxId);
    ghost var pass := ChildrenPass(node.children, StartPass(node, old(counter.id)), lk);
    for i := 0 to |node.children|
      invariant Grown(node.edges, old(counter.id), node.maxId, agg.edges, counter.id, agg.maxId)
      invariant |agg.edges| == |node.edges| ==> agg.toDelete == {}
      invariant pass == ChildrenPass(node.children[i..], agg.State(), lk)
    {
      assert node.children[i..][0] == node.children[i] && node.children[i..][1..] == node.children[i + 1..];
      ghost var e1, c1, m1 := agg.edges, counter.id, agg.maxId;
      var sub := agg.Aggregate(node.children[i].ports);
      GrownTrans(node.edges, old(counter.id), node.maxId, e1, c1, m1, agg.edges, counter.id, agg.maxId);
      if sub.Err? {
        return Err(sub.msg);
      }
    }
    var kept := FilterEdges(agg.edges, agg.toDelete);
    r := Ok(node.(edges := kept, maxId := agg.maxId));
    forall k | 0 <= k < |kept| ensures kept[k] in node.edges || old(counter.id) <= kept[k].id < counter.id {
      var j :| 0 <= j < |agg.edges| && agg.edges[j] == kept[k];
      if j < |node.edges| {
        assert agg.edges[j] == node.edges[j];
      }
    }
    if CheckMaxId(node) && node.maxId.value < old(counter.id) {
      KeepsCheckMaxId(node, old(counter.id), agg.edges, counter.id, agg.maxId, kept);
    }
  }

  /** The bound argument for the driver: the node's content other than its
      edges is untouched, and the kept edges are within the new bound. */
  lemma KeepsCheckMaxId(node: Node, c0: nat, e: seq<Edge>, c: nat, m: Option<int>, kept: seq<Edge>)
    requires CheckMaxId(node) && node.maxId.value < c0 && !node.edgesAt.Absent?
    requires Grown(node.edges, c0, node.maxId, e, c, m)
    requires forall k | 0 <= k < |kept| :: kept[k] in e
    ensures m.Some? && CheckMaxId(node.(edges := kept, maxId := m)) && m.value < c
  {
    CheckMaxIdIsContentWithin(node);
    GrownWithin(node.edges, c0, node.maxId, e, c, m);
    ContentWithinMonotone(node, node.maxId.value, m.value);
    var n' := node.(edges := kept, maxId := m);
    forall k | 0 <= k < |kept| ensures kept[k].id <= m.value {
      var j :| 0 <= j < |e| && e[j] == kept[k];
    }
    assert ContentWithin(n', m.value);
    CheckMaxIdIsContentWithin(n');
  }
}
