/** Port hierarchy discovery (src/yosysPortHierarchy.js): flat ports whose
    names share underscore-separated prefixes are grouped under header ports,
    the group members take the side of their top-level port, and the ports
    are put into clockwise order. */
module PortHierarchy {
  import opened Outcomes
  import opened Text
  import opened Graph
  import opened YosysUtils
  import opened LObjects
  import opened ObjectIdChecks

  // ---------------------------------------------------------------------
  // The name trie

  /** A `NameDictNode`: its absolute `prefix`, the ports that end on this
      level, and the nested groups under `keys[k]` (in insertion order). */
  datatype NameDict = NameDict(prefix: string, children: seq<Port>, keys: seq<string>, groups: seq<NameDict>)

  /** The absolute name of a nested group: `parent_name`, or the bare name at
      the root. */
  function AbsoluteName(prefix: string, name: string): string
  {
    if |prefix| != 0 then prefix + "_" + name else name
  }

  /** The position of the first key equal to `name`, or `|keys|`. */
  function KeyIndex(keys: seq<string>, name: string): (r: nat)
    ensures r <= |keys|
    ensures r < |keys| ==> keys[r] == name
    ensures forall j | 0 <= j < r :: keys[j] != name
  {
    if keys == [] then 0 else if keys[0] == name then 0 else 1 + KeyIndex(keys[1..], name)
  }

  lemma KeyIndexAppend(keys: seq<string>, x: string, name: string)
    ensures KeyIndex(keys, name) < |keys| ==> KeyIndex(keys + [x], name) == KeyIndex(keys, name)
    ensures KeyIndex(keys, name) == |keys| && x == name ==> KeyIndex(keys + [x], name) == |keys|
  {
    var k := KeyIndex(keys + [x], name);
    if KeyIndex(keys, name) < |keys| {
      assert (keys + [x])[KeyIndex(keys, name)] == name;
    }
    if KeyIndex(keys, name) == |keys| && x == name {
      assert (keys + [x])[|keys|] == name;
    }
  }

  predicate DistinctKeys(keys: seq<string>)
  {
    forall i, j | 0 <= i < j < |keys| :: keys[i] != keys[j]
  }

  /** The ports of a trie in the order `createPortHierarchy` emits them: the
      direct ports of a level before its nested groups. */
  function AllPorts(d: NameDict): seq<Port>
  {
    d.children + GroupsPorts(d.groups)
  }

  function GroupsPorts(gs: seq<NameDict>): seq<Port>
  {
    if gs == [] then [] else AllPorts(gs[0]) + GroupsPorts(gs[1..])
  }

  /** The shape every trie built from ports has: one group per key, distinct
      keys, absolute prefixes, and no empty group. */
  predicate WellFormed(d: NameDict)
  {
    |d.keys| == |d.groups| && DistinctKeys(d.keys) &&
    forall k | 0 <= k < |d.groups| ::
      d.groups[k].prefix == AbsoluteName(d.prefix, d.keys[k]) && |AllPorts(d.groups[k])| > 0 && WellFormed(d.groups[k])
  }

  lemma {:induction false} GroupsPortsAppend(a: seq<NameDict>, b: seq<NameDict>)
    ensures GroupsPorts(a + b) == GroupsPorts(a) + GroupsPorts(b)
  {
    if a == [] {
      assert a + b == b;
    } else {
      assert (a + b)[1..] == a[1..] + b;
      GroupsPortsAppend(a[1..], b);
    }
  }

  /** Replacing one group replaces its ports in the emission order. */
  lemma GroupsPortsUpdate(gs: seq<NameDict>, k: nat, g: NameDict)
    requires k < |gs|
    ensures GroupsPorts(gs[k := g]) == GroupsPorts(gs[..k]) + AllPorts(g) + GroupsPorts(gs[k + 1..])
    ensures GroupsPorts(gs) == GroupsPorts(gs[..k]) + AllPorts(gs[k]) + GroupsPorts(gs[k + 1..])
  {
    assert gs[k := g] == gs[..k] + [g] + gs[k + 1..];
    assert gs == gs[..k] + [gs[k]] + gs[k + 1..];
    GroupsPortsAppend(gs[..k] + [g], gs[k + 1..]);
    GroupsPortsAppend(gs[..k], [g]);
    GroupsPortsAppend(gs[..k] + [gs[k]], gs[k + 1..]);
    GroupsPortsAppend(gs[..k], [gs[k]]);
    assert [g][1..] == [] && [gs[k]][1..] == [];
  }

  /** `getForPrefix`: the group for `name`, created (with its absolute name)
      and appended when it does not exist yet. */
  function GetForPrefix(d: NameDict, name: string): (r: (NameDict, nat))
    requires |d.keys| == |d.groups|
    ensures |r.0.keys| == |r.0.groups| && r.1 < |r.0.groups| && r.0.keys[r.1] == name
    ensures r.0.prefix == d.prefix && r.0.children == d.children
    ensures r.1 == KeyIndex(r.0.keys, name)
    ensures name in d.keys ==> r.0 == d
    ensures name !in d.keys ==> (r.1 == |d.keys| && r.0.keys[..r.1] == d.keys && r.0.groups[..r.1] == d.groups &&
      r.0.groups[r.1] == NameDict(AbsoluteName(d.prefix, name), [], [], []))
  {
    var k := KeyIndex(d.keys, name);
    if k < |d.keys| then (d, k)
    else
      KeyIndexAppend(d.keys, name, name);
      (d.(keys := d.keys + [name], groups := d.groups + [NameDict(AbsoluteName(d.prefix, name), [], [], [])]), k)
  }

  /** Asking twice for the same name gives the same group and changes nothing
      the second time. */
  lemma GetForPrefixTwice(d: NameDict, name: string)
    requires |d.keys| == |d.groups|
    ensures GetForPrefix(GetForPrefix(d, name).0, name) == GetForPrefix(d, name)
  {
  }

  /** The walk of the first loop of `getPortStartNameToPorts`: descend through
      (and create) the groups named by `segs`, then add the port there. */
  function Insert(d: NameDict, segs: seq<string>, port: Port): (r: NameDict)
    requires WellFormed(d)
    ensures |r.keys| == |r.groups| && r.prefix == d.prefix
    ensures |segs| == 0 ==> r.keys == d.keys
    ensures |segs| > 0 && segs[0] in d.keys ==> r.keys == d.keys
    decreases |segs|
  {
    if segs == [] then d.(children := d.children + [port])
    else
      var (d', k) := GetForPrefix(d, segs[0]);
      d'.(groups := d'.groups[k := Insert(d'.groups[k], segs[1..], port)])
  }

  /** Inserting adds exactly the one port. */
  lemma {:induction false} InsertAddsPort(d: NameDict, segs: seq<string>, port: Port)
    requires WellFormed(d)
    ensures multiset(AllPorts(Insert(d, segs, port))) == multiset(AllPorts(d)) + multiset{port}
    decreases |segs|
  {
    if segs != [] {
      var (d', k) := GetForPrefix(d, segs[0]);
      var g := Insert(d'.groups[k], segs[1..], port);
      InsertAddsPort(d'.groups[k], segs[1..], port);
      GroupsPortsUpdate(d'.groups, k, g);
      if segs[0] !in d.keys {
        assert d'.groups == d.groups + [d'.groups[k]];
        GroupsPortsAppend(d.groups, [d'.groups[k]]);
        assert [d'.groups[k]][1..] == [];
        assert d'.groups[k + 1..] == [];
      }
    }
  }

  /** Inserting keeps the trie well formed. */
  lemma {:induction false} InsertWellFormed(d: NameDict, segs: seq<string>, port: Port)
    requires WellFormed(d)
    ensures WellFormed(Insert(d, segs, port))
    decreases |segs|
  {
    if segs != [] {
      var (d', k) := GetForPrefix(d, segs[0]);
      var g := Insert(d'.groups[k], segs[1..], port);
      InsertWellFormed(d'.groups[k], segs[1..], port);
      InsertAddsPort(d'.groups[k], segs[1..], port);
      assert |AllPorts(g)| > 0 by {
        assert port in multiset(AllPorts(g));
      }
      var r := Insert(d, segs, port);
      assert r == d'.(groups := d'.groups[k := g]);
      if segs[0] !in d.keys {
        assert DistinctKeys(d'.keys) by {
          assert d'.keys == d.keys + [segs[0]];
        }
      }
    }
  }

  /** The group a path of keys leads to. */
  function Sub(d: NameDict, path: seq<string>): Option<NameDict>
    decreases |path|
  {
    if path == [] then Some(d)
    else
      var k := KeyIndex(d.keys, path[0]);
      if k < |d.keys| && k < |d.groups| then Sub(d.groups[k], path[1..]) else None
  }

  /** `port` is one of the direct ports of the group at `path`. */
  predicate In(d: NameDict, path: seq<string>, port: Port)
  {
    Sub(d, path).Some? && port in Sub(d, path).value.children
  }

  /** The inserted port ends up directly in the group its segments name. */
  lemma {:induction false} InsertPlaces(d: NameDict, segs: seq<string>, port: Port)
    requires WellFormed(d)
    ensures In(Insert(d, segs, port), segs, port)
    decreases |segs|
  {
    if segs != [] {
      var (d', k) := GetForPrefix(d, segs[0]);
      var g := Insert(d'.groups[k], segs[1..], port);
      InsertPlaces(d'.groups[k], segs[1..], port);
      var r := Insert(d, segs, port);
      assert r == d'.(groups := d'.groups[k := g]);
      assert KeyIndex(r.keys, segs[0]) == k;
    }
  }

  /** Inserting never moves or drops a port that is already placed. */
  lemma {:induction false} InsertKeeps(d: NameDict, segs: seq<string>, port: Port, path: seq<string>, q: Port)
    requires WellFormed(d) && In(d, path, q)
    ensures In(Insert(d, segs, port), path, q)
    decreases |segs|
  {
    var r := Insert(d, segs, port);
    if path != [] && segs != [] {
      var (d', k) := GetForPrefix(d, segs[0]);
      var g := Insert(d'.groups[k], segs[1..], port);
      assert r == d'.(groups := d'.groups[k := g]);
      var j := KeyIndex(d.keys, path[0]);
      if segs[0] !in d.keys {
        KeyIndexAppend(d.keys, segs[0], path[0]);
      }
      assert KeyIndex(r.keys, path[0]) == j;
      if j == k {
        InsertKeeps(d'.groups[k], segs[1..], port, path[1..], q);
      }
    }
  }

  // ---------------------------------------------------------------------
  // Queries on the trie

  /** `getAnyChildren`: the first direct port, else the first nested group's
      answer; nothing for an empty trie. */
  function GetAnyChildren(d: NameDict): Option<Port>
  {
    if |d.children| != 0 then Some(d.children[0])
    else if |d.groups| != 0 then GetAnyChildren(d.groups[0])
    else None
  }

  /** In a well-formed trie the answer is the first port in emission order. */
  lemma {:induction false} AnyChildrenIsFirst(d: NameDict)
    requires WellFormed(d)
    ensures GetAnyChildren(d) == if |AllPorts(d)| > 0 then Some(AllPorts(d)[0]) else None
  {
    if |d.children| == 0 && |d.groups| != 0 {
      AnyChildrenIsFirst(d.groups[0]);
      assert AllPorts(d) == AllPorts(d.groups[0]) + GroupsPorts(d.groups[1..]);
    }
  }

  /** `hasMultipleChildren`. */
  predicate HasMultipleChildren(d: NameDict)
  {
    if |d.children| > 1 then true
    else if |d.children| == 1 then |d.groups| > 0
    else if |d.groups| > 1 then true
    else if |d.groups| == 1 then HasMultipleChildren(d.groups[0])
    else false
  }

  /** In a well-formed trie, `hasMultipleChildren` holds exactly when the
      trie holds more than one port. */
  lemma {:induction false} HasMultipleChildrenCounts(d: NameDict)
    requires WellFormed(d)
    ensures HasMultipleChildren(d) <==> |AllPorts(d)| > 1
  {
    if |d.groups| > 0 {
      assert GroupsPorts(d.groups) == AllPorts(d.groups[0]) + GroupsPorts(d.groups[1..]);
      if |d.groups| > 1 {
        assert GroupsPorts(d.groups[1..]) == AllPorts(d.groups[1]) + GroupsPorts(d.groups[2..]);
      } else {
        assert d.groups[1..] == [];
        if |d.children| == 0 {
          HasMultipleChildrenCounts(d.groups[0]);
        }
      }
    }
  }

  // ---------------------------------------------------------------------
  // Building the trie

  /** A port whose name holds an underscore is grouped by its leading
      segments; the others are placed in a second pass. */
  predicate Grouped(p: Port)
  {
    '_' in p.name
  }

  /** The ports with (or without) an underscore, in their order. */
  function Picked(ps: seq<Port>, grouped: bool): seq<Port>
  {
    if ps == [] then []
    else Picked(ps[..|ps| - 1], grouped) + (if Grouped(ps[|ps| - 1]) == grouped then [ps[|ps| - 1]] else [])
  }

  lemma PickedStep(ports: seq<Port>, i: nat, grouped: bool)
    requires i < |ports|
    ensures Picked(ports[..i + 1], grouped) == Picked(ports[..i], grouped) + (if Grouped(ports[i]) == grouped then [ports[i]] else [])
  {
    assert ports[..i + 1][..i] == ports[..i];
  }

  lemma {:induction false} PickedPartition(ps: seq<Port>)
    ensures multiset(Picked(ps, true)) + multiset(Picked(ps, false)) == multiset(ps)
  {
    if ps != [] {
      PickedPartition(ps[..|ps| - 1]);
      assert ps == ps[..|ps| - 1] + [ps[|ps| - 1]];
    }
  }

  /** Where `getPortStartNameToPorts` puts a port: under its leading
      underscore-separated segments; a name without an underscore goes to
      the top-level group of the same name when there is one, otherwise to
      the root itself. */
  predicate Placed(d: NameDict, p: Port)
  {
    var segs := Split(p.name, '_');
    if |segs| > 1 then In(d, segs[..|segs| - 1], p)
    else if p.name in d.keys then In(d, [p.name], p)
    else p in d.children
  }

  /** The ports among `ports` the second pass has dealt with are placed: all
      with an underscore and those without one before position `i`. */
  predicate PlacedSoFar(d: NameDict, ports: seq<Port>, i: nat)
  {
    forall j | 0 <= j < |ports| && (Grouped(ports[j]) || j < i) :: Placed(d, ports[j])
  }

  /** The first pass has placed the ports with an underscore before `i`. */
  predicate GroupedSoFar(d: NameDict, ports: seq<Port>, i: nat)
    requires i <= |ports|
  {
    forall j | 0 <= j < i && Grouped(ports[j]) :: Placed(d, ports[j])
  }

  lemma GroupedSoFarSkip(d: NameDict, ports: seq<Port>, i: nat)
    requires i < |ports| && !Grouped(ports[i]) && GroupedSoFar(d, ports, i)
    ensures GroupedSoFar(d, ports, i + 1)
  {
  }

  lemma PlacedSoFarSkip(d: NameDict, ports: seq<Port>, i: nat)
    requires i < |ports| && Grouped(ports[i]) && PlacedSoFar(d, ports, i)
    ensures PlacedSoFar(d, ports, i + 1)
  {
  }

  /** The group a port without an underscore joins in the second pass. */
  function BarePath(d: NameDict, p: Port): seq<string>
  {
    if p.name in d.keys then [p.name] else []
  }

  /** The path `Placed` prescribes, with the top-level keys fixed. */
  function PlacePath(d: NameDict, p: Port): seq<string>
  {
    var segs := Split(p.name, '_');
    if |segs| > 1 then segs[..|segs| - 1] else BarePath(d, p)
  }

  lemma PlacedAt(d: NameDict, p: Port)
    ensures Placed(d, p) <==> In(d, PlacePath(d, p), p)
  {
  }

  /** One step of the first pass of `getPortStartNameToPorts`. */
  lemma GroupStep(r: NameDict, ports: seq<Port>, i: nat)
    requires i < |ports| && WellFormed(r)
    requires multiset(AllPorts(r)) == multiset(Picked(ports[..i], true))
    requires GroupedSoFar(r, ports, i)
    requires Grouped(ports[i])
    ensures var r' := Insert(r, PlacePath(r, ports[i]), ports[i]);
      WellFormed(r') && r'.prefix == r.prefix &&
      multiset(AllPorts(r')) == multiset(Picked(ports[..i + 1], true)) &&
      GroupedSoFar(r', ports, i + 1)
  {
    var p := ports[i];
    var path := PlacePath(r, p);
    PickedStep(ports, i, true);
    GroupStepPlaces(r, ports, i);
    InsertAddsPort(r, path, p);
    InsertWellFormed(r, path, p);
  }

  lemma GroupStepPlaces(r: NameDict, ports: seq<Port>, i: nat)
    requires i < |ports| && WellFormed(r)
    requires GroupedSoFar(r, ports, i)
    requires Grouped(ports[i])
    ensures GroupedSoFar(Insert(r, PlacePath(r, ports[i]), ports[i]), ports, i + 1)
  {
    var p := ports[i];
    SplitSingle(p.name, '_');
    var path := PlacePath(r, p);
    var r' := Insert(r, path, p);
    forall j | 0 <= j < i + 1 && Grouped(ports[j]) ensures Placed(r', ports[j]) {
      SplitSingle(ports[j].name, '_');
      if j < i {
        PlacedAt(r, ports[j]);
        InsertKeeps(r, path, p, PlacePath(r, ports[j]), ports[j]);
      } else {
        InsertPlaces(r, path, p);
      }
      PlacedAt(r', ports[j]);
    }
  }

  /** One step of the second pass of `getPortStartNameToPorts`. */
  lemma BareStep(r: NameDict, ports: seq<Port>, i: nat)
    requires i < |ports| && WellFormed(r)
    requires multiset(AllPorts(r)) == multiset(Picked(ports, true)) + multiset(Picked(ports[..i], false))
    requires PlacedSoFar(r, ports, i)
    requires !Grouped(ports[i])
    ensures var r' := Insert(r, BarePath(r, ports[i]), ports[i]);
      WellFormed(r') && r'.prefix == r.prefix && r'.keys == r.keys &&
      multiset(AllPorts(r')) == multiset(Picked(ports, true)) + multiset(Picked(ports[..i + 1], false)) &&
      PlacedSoFar(r', ports, i + 1)
  {
    var p := ports[i];
    var path := BarePath(r, p);
    PickedStep(ports, i, false);
    BareStepPlaces(r, ports, i);
    InsertAddsPort(r, path, p);
    InsertWellFormed(r, path, p);
  }

  lemma BareStepPlaces(r: NameDict, ports: seq<Port>, i: nat)
    requires i < |ports| && WellFormed(r)
    requires PlacedSoFar(r, ports, i)
    requires !Grouped(ports[i])
    ensures PlacedSoFar(Insert(r, BarePath(r, ports[i]), ports[i]), ports, i + 1)
  {
    var p := ports[i];
    SplitSingle(p.name, '_');
    var path := BarePath(r, p);
    var r' := Insert(r, path, p);
    forall j | 0 <= j < |ports| && (Grouped(ports[j]) || j < i + 1) ensures Placed(r', ports[j]) {
      SplitSingle(ports[j].name, '_');
      if j != i {
        PlacedAt(r, ports[j]);
        InsertKeeps(r, path, p, PlacePath(r, ports[j]), ports[j]);
      } else {
        InsertPlaces(r, path, p);
      }
      PlacedAt(r', ports[j]);
    }
  }

  /** `d` is a trie of `ports` by name: every port in exactly one group, at
      the place its name prescribes. */
  ghost predicate NameTrie(ports: seq<Port>, d: NameDict)
  {
    && WellFormed(d) && d.prefix == ""
    && multiset(AllPorts(d)) == multiset(ports)
    && forall j | 0 <= j < |ports| :: Placed(d, ports[j])
  }

  /** `getPortStartNameToPorts`. */
  method GetPortStartNameToPorts(ports: seq<Port>) returns (r: NameDict)
    ensures NameTrie(ports, r)
  {
    r := GroupUnderscored(ports);
    r := PlaceBareNames(ports, r);
    PickedPartition(ports);
  }

  /** The first loop of `getPortStartNameToPorts`: the ports with an
      underscore go under their leading segments. */
  method GroupUnderscored(ports: seq<Port>) returns (r: NameDict)
    ensures WellFormed(r) && r.prefix == ""
    ensures multiset(AllPorts(r)) == multiset(Picked(ports, true))
    ensures forall j | 0 <= j < |ports| && Grouped(ports[j]) :: Placed(r, ports[j])
  {
    r := NameDict("", [], [], []);
    var i := 0;
    while i < |ports|
      invariant 0 <= i <= |ports|
      invariant WellFormed(r) && r.prefix == ""
      invariant multiset(AllPorts(r)) == multiset(Picked(ports[..i], true))
      invariant GroupedSoFar(r, ports, i)
    {
      var names := Split(ports[i].name, '_');
      SplitSingle(ports[i].name, '_');
      if |names| != 1 {
        GroupStep(r, ports, i);
        assert PlacePath(r, ports[i]) == names[..|names| - 1];
        r := Insert(r, names[..|names| - 1], ports[i]);
      } else {
        PickedStep(ports, i, true);
        GroupedSoFarSkip(r, ports, i);
      }
      i := i + 1;
    }
    assert ports[..i] == ports;
  }

  /** The second loop of `getPortStartNameToPorts`: a name without an
      underscore joins the top-level group of the same name, if any, else
      the root. */
  method PlaceBareNames(ports: seq<Port>, d: NameDict) returns (r: NameDict)
    requires WellFormed(d)
    requires multiset(AllPorts(d)) == multiset(Picked(ports, true))
    requires forall j | 0 <= j < |ports| && Grouped(ports[j]) :: Placed(d, ports[j])
    ensures WellFormed(r) && r.prefix == d.prefix && r.keys == d.keys
    ensures multiset(AllPorts(r)) == multiset(Picked(ports, true)) + multiset(Picked(ports, false))
    ensures forall j | 0 <= j < |ports| :: Placed(r, ports[j])
  {
    r := d;
    var i := 0;
    assert PlacedSoFar(r, ports, 0);
    while i < |ports|
      invariant 0 <= i <= |ports|
      invariant WellFormed(r) && r.prefix == d.prefix && r.keys == d.keys
      invariant multiset(AllPorts(r)) == multiset(Picked(ports, true)) + multiset(Picked(ports[..i], false))
      invariant PlacedSoFar(r, ports, i)
    {
      if '_' !in ports[i].name {
        BareStep(r, ports, i);
        r := Insert(r, BarePath(r, ports[i]), ports[i]);
      } else {
        PickedStep(ports, i, false);
        PlacedSoFarSkip(r, ports, i);
      }
      i := i + 1;
    }
    assert ports[..i] == ports;
  }

  // ---------------------------------------------------------------------
  // Emitting the hierarchy

  /** The original ports of an emitted forest when the originals have ids up
      to `top` and every header was drawn from the counter later: headers are
      descended through, originals are taken whole. */
  function MembersOf(p: Port, top: int): seq<Port>
  {
    if p.id <= top then [p] else Members(p.children, top)
  }

  function Members(ps: seq<Port>, top: int): seq<Port>
  {
    if ps == [] then [] else MembersOf(ps[0], top) + Members(ps[1..], top)
  }

  lemma {:induction false} MembersAppend(a: seq<Port>, b: seq<Port>, top: int)
    ensures Members(a + b, top) == Members(a, top) + Members(b, top)
  {
    if a == [] {
      assert a + b == b;
    } else {
      assert (a + b)[1..] == a[1..] + b;
      MembersAppend(a[1..], b, top);
    }
  }

  lemma {:induction false} MembersOfOriginals(ps: seq<Port>, top: int)
    requires forall k | 0 <= k < |ps| :: ps[k].id <= top
    ensures Members(ps, top) == ps
  {
    if ps != [] {
      MembersOfOriginals(ps[1..], top);
    }
  }

  /** `direction.toLowerCase()` of an upper-cased direction. */
  function DirectionName(d: Direction): (r: string)
    ensures DirectionOf(r) == Some(d)
  {
    if d == INPUT then "input"
    else
      assert d == OUTPUT;
      assert "output" != "input" by { assert "output"[0] != "input"[0]; }
      assert DirectionOf("output") == Some(OUTPUT);
      "output"
  }

  /** The header port `createPortHierarchy` makes for a multi-port group
      with a non-empty prefix: the next id, the prefix as its name, the
      direction of the group's first port, the side that name and direction
      give, the position in the list it is appended to, and the group's
      ports (through nested headers) beneath it. */
  predicate IsHeader(h: Port, d: NameDict, nodeName: string, id: nat, index: nat, top: int)
    requires GetAnyChildren(d).Some?
  {
    var any := GetAnyChildren(d).value;
    h.id == id && h.name == d.prefix && h.direction == any.direction &&
    Ok(h.side) == PortSide(d.prefix, DirectionName(any.direction), nodeName) &&
    h.index == index && Members(h.children, top) == AllPorts(d)
  }

  lemma WithinJoin(a: seq<Port>, b: seq<Port>, ma: int, mb: int, m: int)
    requires PortsWithin(a, ma) && PortsWithin(b, mb) && ma <= m && mb <= m
    ensures PortsWithin(a + b, m)
  {
    PortsWithinMonotone(a, ma, m);
    PortsWithinMonotone(b, mb, m);
    PortsWithinAppend(a, b, m);
  }

  /** The ports of one group are among the ports of the trie. */
  lemma GroupWithin(d: NameDict, k: nat, m: int)
    requires k < |d.groups| && PortsWithin(AllPorts(d), m)
    ensures PortsWithin(AllPorts(d.groups[k]), m)
  {
    GroupsPortsUpdate(d.groups, k, d.groups[k]);
    PortsWithinAppend(d.children, GroupsPorts(d.groups), m);
    PortsWithinAppend(GroupsPorts(d.groups[..k]) + AllPorts(d.groups[k]), GroupsPorts(d.groups[k + 1..]), m);
    PortsWithinAppend(GroupsPorts(d.groups[..k]), AllPorts(d.groups[k]), m);
  }

  /** `names` extends `before`: every entry it adds or changes is under a key
      at least `minLen` long and holds an id drawn from the counter between
      `lo` and `hi`. */
  predicate NamesGrown(before: map<string, nat>, names: map<string, nat>, minLen: nat, lo: nat, hi: nat)
  {
    (forall key | key in before :: key in names) &&
    forall key | key in names ::
      (key in before && names[key] == before[key]) || (|key| >= minLen && lo <= names[key] < hi)
  }

  lemma NamesGrownTrans(a: map<string, nat>, b: map<string, nat>, c: map<string, nat>, m1: nat, m2: nat, lo: nat, mid: nat, hi: nat)
    requires NamesGrown(a, b, m1, lo, mid) && NamesGrown(b, c, m2, mid, hi) && m1 <= m2 && lo <= mid <= hi
    ensures NamesGrown(a, c, m1, lo, hi)
  {
  }

  /** What covers the ports emitted while the counter went from `lo` to `hi`:
      the bound of the trie's ports, or the last id drawn if any was. */
  function Cover(bound: int, lo: nat, hi: nat): int
  {
    if hi == lo then bound else hi - 1
  }

  /** Ports covered by the trie's bound followed by ports emitted while the
      counter went from `c0` to `c1` are covered by what the whole emission
      from `lo` leaves. */
  lemma CoverJoin(a: seq<Port>, b: seq<Port>, bound: int, lo: nat, c0: nat, c1: nat)
    requires PortsWithin(a, bound) && PortsWithin(b, Cover(bound, c0, c1))
    requires bound < lo <= c0 <= c1
    ensures PortsWithin(a + b, Cover(bound, lo, c1))
  {
    WithinJoin(a, b, bound, Cover(bound, c0, c1), Cover(bound, lo, c1));
  }

  /** The bookkeeping of one pass of the group loop of `createPortHierarchy`. */
  lemma EmitStep(d: NameDict, k: nat, done: seq<Port>, more: seq<Port>, lo: nat, c0: nat, c1: nat, bound: int)
    requires k < |d.groups|
    requires Members(done, bound) == GroupsPorts(d.groups[..k])
    requires Members(more, bound) == AllPorts(d.groups[k])
    requires PortsWithin(done, Cover(bound, lo, c0))
    requires PortsWithin(more, Cover(bound, c0, c1))
    requires lo <= c0 <= c1 && bound < lo
    ensures Members(done + more, bound) == GroupsPorts(d.groups[..k + 1])
    ensures PortsWithin(done + more, Cover(bound, lo, c1))
  {
    MembersAppend(done, more, bound);
    assert d.groups[..k + 1] == d.groups[..k] + [d.groups[k]];
    GroupsPortsAppend(d.groups[..k], [d.groups[k]]);
    assert [d.groups[k]][1..] == [];
    WithinJoin(done, more, Cover(bound, lo, c0),
               Cover(bound, c0, c1), Cover(bound, lo, c1));
  }

  /** One more group's emission extends the parts. */
  lemma PartsSnoc(groups: seq<NameDict>, k: nat, parts: seq<seq<Port>>, more: seq<Port>, nodeName: string,
                  index: nat, bound: int)
    requires k < |groups| && PartsAppend(groups[..k], parts, nodeName, index, bound)
    requires Appends(groups[k], more, nodeName, index + |Flatten(parts)|, bound)
    ensures Flatten(parts + [more]) == Flatten(parts) + more
    ensures PartsAppend(groups[..k + 1], parts + [more], nodeName, index, bound)
  {
    assert (parts + [more])[..|parts|] == parts;
    assert groups[..k + 1][..k] == groups[..k];
  }

  /** The shortest name a header under the nested groups of `d` can have. */
  function NestedNameLength(d: NameDict): nat
  {
    if d.prefix == "" then 0 else |d.prefix| + 1
  }

  /** The emissions of consecutive groups, one after the other. */
  function Flatten(parts: seq<seq<Port>>): seq<Port>
  {
    if parts == [] then [] else Flatten(parts[..|parts| - 1]) + parts[|parts| - 1]
  }

  /** What `createPortHierarchy` appends for the group `g` to a list that
      held `index` ports: the group's ports, through any headers; the one
      port itself when the group holds a single port; a single new header
      port when the group holds several and has a prefix. */
  ghost predicate Appends(g: NameDict, out: seq<Port>, nodeName: string, index: nat, bound: int)
  {
    && Members(out, bound) == AllPorts(g)
    && (!HasMultipleChildren(g) ==> GetAnyChildren(g).Some? && out == [GetAnyChildren(g).value])
    && (HasMultipleChildren(g) && g.prefix != "" ==>
          && |out| == 1 && bound < out[0].id && GetAnyChildren(g).Some?
          && IsHeader(out[0], g, nodeName, out[0].id, index, bound))
  }

  /** `parts` are what the nested groups of `g` append, in order, to a list
      that held `index` ports before the first of them. */
  ghost predicate GroupsAppend(g: NameDict, parts: seq<seq<Port>>, nodeName: string, index: nat, bound: int)
  {
    PartsAppend(g.groups, parts, nodeName, index, bound)
  }

  /** `parts[k]` is what `groups[k]` appends after the parts before it. */
  ghost predicate PartsAppend(groups: seq<NameDict>, parts: seq<seq<Port>>, nodeName: string, index: nat, bound: int)
  {
    |parts| == |groups| &&
    (parts != [] ==>
       && PartsAppend(groups[..|groups| - 1], parts[..|parts| - 1], nodeName, index, bound)
       && Appends(groups[|groups| - 1], parts[|parts| - 1], nodeName, index + |Flatten(parts[..|parts| - 1])|, bound))
  }

  /** One level of the hierarchy: the direct ports of `g` and then what its
      nested groups append. */
  ghost predicate LevelOf(g: NameDict, out: seq<Port>, parts: seq<seq<Port>>, nodeName: string, index: nat, bound: int)
  {
    out == g.children + Flatten(parts) && GroupsAppend(g, parts, nodeName, index + |g.children|, bound)
  }

  /** `createPortHierarchy`: the ports it appends to a list that held `index`
      ports. A group with a single port is that port itself; a larger group
      with a prefix becomes one new header port holding the group's direct
      ports and then its nested groups; the members of the root group are
      appended directly. `bound` covers the ports of the trie; afterwards
      the appended ports are covered by it, or by the counter once a header
      was drawn. */
  method CreatePortHierarchy(counter: IdCounter, nodeName: string, d: NameDict, index: nat,
                             portByName: map<string, nat>, ghost bound: int)
    returns (emitted: seq<Port>, names: map<string, nat>, ghost parts: seq<seq<Port>>)
    requires WellFormed(d) && |AllPorts(d)| > 0
    requires PortsWithin(AllPorts(d), bound) && bound < counter.id
    modifies counter
    decreases d, 4
    ensures counter.id >= old(counter.id)
    ensures Appends(d, emitted, nodeName, index, bound)
    ensures HasMultipleChildren(d) && d.prefix == "" ==> LevelOf(d, emitted, parts, nodeName, index, bound)
    ensures HasMultipleChildren(d) && d.prefix != "" ==> LevelOf(d, emitted[0].children, parts, nodeName, 0, bound)
    ensures PortsWithin(emitted, Cover(bound, old(counter.id), counter.id))
    ensures !HasMultipleChildren(d) ==> (GetAnyChildren(d).Some? &&
      emitted == [GetAnyChildren(d).value] && counter.id == old(counter.id) && names == portByName)
    ensures HasMultipleChildren(d) && d.prefix != "" ==> (
      |emitted| == 1 && GetAnyChildren(d).Some? && IsHeader(emitted[0], d, nodeName, old(counter.id), index, bound) &&
      d.prefix in names && names[d.prefix] == old(counter.id))
    ensures NamesGrown(portByName, names, |d.prefix|, old(counter.id), counter.id)
  {
    AnyChildrenIsFirst(d);
    HasMultipleChildrenCounts(d);
    ghost var lo := counter.id;
    if !HasMultipleChildren(d) {
      var any := GetAnyChildren(d).value;
      assert CheckMaxIdPorts(bound, AllPorts(d)[0]);
      emitted := [any];
      assert PortsWithin(emitted, bound);
      names := portByName;
      MembersOfOriginals([any], bound);
      parts := [];
      return;
    }
    if d.prefix != "" {
      ghost var inner;
      emitted, names, parts, inner := EmitHeader(counter, nodeName, d, index, portByName, bound);
    } else {
      emitted, names, parts := EmitLevel(counter, nodeName, d, index, portByName, bound);
    }
  }

  /** A group of several ports with a prefix: one new header port, drawn
      before anything beneath it, named by the prefix and registered under
      it, holding the group's direct ports and then its nested groups. */
  method EmitHeader(counter: IdCounter, nodeName: string, d: NameDict, index: nat,
                    portByName: map<string, nat>, ghost bound: int)
    returns (emitted: seq<Port>, names: map<string, nat>, ghost parts: seq<seq<Port>>, ghost inner: seq<Port>)
    requires WellFormed(d) && |AllPorts(d)| > 0 && d.prefix != ""
    requires PortsWithin(AllPorts(d), bound) && bound < counter.id
    modifies counter
    decreases d, 3
    ensures counter.id > old(counter.id)
    ensures |emitted| == 1 && GetAnyChildren(d).Some?
    ensures IsHeader(emitted[0], d, nodeName, old(counter.id), index, bound)
    ensures emitted[0].children == inner && LevelOf(d, inner, parts, nodeName, 0, bound)
    ensures PortsWithin(emitted, Cover(bound, old(counter.id), counter.id))
    ensures d.prefix in names && names[d.prefix] == old(counter.id)
    ensures NamesGrown(portByName, names, |d.prefix|, old(counter.id), counter.id)
  {
    AnyChildrenIsFirst(d);
    ghost var lo := counter.id;
    var any := GetAnyChildren(d).value;
    var made := CreateLPort(counter, nodeName, d.prefix, DirectionName(any.direction), index);
    var header := made.value;
    var names0 := portByName[d.prefix := header.id];
    var list;
    list, names, parts := EmitLevel(counter, nodeName, d, 0, names0, bound);
    HeaderRegistered(portByName, d.prefix, lo, names, counter.id);
    var top := header.(children := list);
    emitted := [top];
    inner := list;
    HeaderHolds(header, list, top, emitted, d, nodeName, index, bound, lo + 1, counter.id);
  }

  /** The header's name keeps the header's id while the names registered
      beneath it, all longer, are added. */
  lemma HeaderRegistered(before: map<string, nat>, key: string, id: nat, names: map<string, nat>, hi: nat)
    requires NamesGrown(before[key := id], names, |key| + 1, id + 1, hi) && id < hi
    ensures key in names && names[key] == id
    ensures NamesGrown(before, names, |key|, id, hi)
  {
    NamesGrownTrans(before, before[key := id], names, |key|, |key| + 1, id, id + 1, hi);
  }

  /** The header drawn at `c0 - 1` becomes the header of the group once the
      ports emitted after it, while the counter went on to `c1`, are put
      beneath it. */
  lemma HeaderHolds(h: Port, list: seq<Port>, top: Port, emitted: seq<Port>, d: NameDict, nodeName: string,
                    index: nat, bound: int, c0: nat, c1: nat)
    requires top == h.(children := list) && emitted == [top]
    requires GetAnyChildren(d).Some? && 0 < c0 <= c1 && bound < c0
    requires h.id == c0 - 1 && h.name == d.prefix && h.index == index
    requires h.direction == GetAnyChildren(d).value.direction
    requires Ok(h.side) == PortSide(d.prefix, DirectionName(GetAnyChildren(d).value.direction), nodeName)
    requires Members(list, bound) == AllPorts(d)
    requires PortsWithin(list, Cover(bound, c0, c1))
    ensures |emitted| == 1 && emitted[0] == top && top.children == list
    ensures IsHeader(top, d, nodeName, c0 - 1, index, bound)
    ensures PortsWithin(emitted, Cover(bound, c0 - 1, c1))
  {
    PortsWithinMonotone(list, Cover(bound, c0, c1), c1 - 1);
    assert CheckMaxIdPorts(c1 - 1, top);
  }

  lemma LevelFromGroups(d: NameDict, nested: seq<Port>, parts: seq<seq<Port>>, nodeName: string, index: nat, at: nat,
                        bound: int)
    requires at == index + |d.children|
    requires nested == Flatten(parts) && GroupsAppend(d, parts, nodeName, at, bound)
    ensures LevelOf(d, d.children + nested, parts, nodeName, index, bound)
  {
  }

  /** One level of `createPortHierarchy` below its header: the direct ports
      of the group followed by its nested groups, appended to a list that
      held `index` ports. */
  method EmitLevel(counter: IdCounter, nodeName: string, d: NameDict, index: nat,
                   portByName: map<string, nat>, ghost bound: int)
    returns (emitted: seq<Port>, names: map<string, nat>, ghost parts: seq<seq<Port>>)
    requires WellFormed(d)
    requires PortsWithin(AllPorts(d), bound) && bound < counter.id
    modifies counter
    decreases d, 2
    ensures counter.id >= old(counter.id)
    ensures Members(emitted, bound) == AllPorts(d)
    ensures LevelOf(d, emitted, parts, nodeName, index, bound)
    ensures PortsWithin(emitted, Cover(bound, old(counter.id), counter.id))
    ensures NamesGrown(portByName, names, NestedNameLength(d), old(counter.id), counter.id)
  {
    ghost var lo := counter.id;
    PortsWithinAppend(d.children, GroupsPorts(d.groups), bound);
    var nested;
    var at := index + |d.children|;
    nested, names, parts := EmitGroups(counter, nodeName, d, at, portByName, bound);
    emitted := d.children + nested;
    LevelFromGroups(d, nested, parts, nodeName, index, at, bound);
    forall k | 0 <= k < |d.children| ensures d.children[k].id <= bound {
      assert CheckMaxIdPorts(bound, d.children[k]);
    }
    MembersOfOriginals(d.children, bound);
    MembersAppend(d.children, nested, bound);
    CoverJoin(d.children, nested, bound, lo, lo, counter.id);
  }

  /** The loop over the nested groups of `createPortHierarchy`: each group in
      turn is appended, the list having held `index` ports before. */
  method EmitGroups(counter: IdCounter, nodeName: string, d: NameDict, index: nat,
                    portByName: map<string, nat>, ghost bound: int)
    returns (emitted: seq<Port>, names: map<string, nat>, ghost parts: seq<seq<Port>>)
    requires WellFormed(d)
    requires PortsWithin(GroupsPorts(d.groups), bound) && bound < counter.id
    modifies counter
    decreases d, 1
    ensures counter.id >= old(counter.id)
    ensures Members(emitted, bound) == GroupsPorts(d.groups)
    ensures emitted == Flatten(parts) && GroupsAppend(d, parts, nodeName, index, bound)
    ensures PortsWithin(emitted, Cover(bound, old(counter.id), counter.id))
    ensures NamesGrown(portByName, names, NestedNameLength(d), old(counter.id), counter.id)
  {
    ghost var lo := counter.id;
    emitted, names, parts := [], portByName, [];
    var k := 0;
    while k < |d.groups|
      invariant 0 <= k <= |d.groups|
      invariant counter.id >= lo
      invariant emitted == Flatten(parts) && PartsAppend(d.groups[..k], parts, nodeName, index, bound)
      invariant Members(emitted, bound) == GroupsPorts(d.groups[..k])
      invariant PortsWithin(emitted, Cover(bound, lo, counter.id))
      invariant NamesGrown(portByName, names, NestedNameLength(d), lo, counter.id)
    {
      emitted, names, parts := EmitGroup(counter, nodeName, d, k, index, emitted, names, parts, portByName, lo, bound);
      k := k + 1;
    }
    assert d.groups[..k] == d.groups;
  }

  /** One turn of that loop: group `k` is emitted after the ports `done`
      emitted for the groups before it. */
  method EmitGroup(counter: IdCounter, nodeName: string, d: NameDict, k: nat, index: nat, done: seq<Port>,
                   names0: map<string, nat>, ghost parts0: seq<seq<Port>>, ghost portByName: map<string, nat>,
                   ghost lo: nat, ghost bound: int)
    returns (emitted: seq<Port>, names: map<string, nat>, ghost parts: seq<seq<Port>>)
    requires WellFormed(d) && k < |d.groups|
    requires PortsWithin(GroupsPorts(d.groups), bound) && bound < lo <= counter.id
    requires done == Flatten(parts0) && PartsAppend(d.groups[..k], parts0, nodeName, index, bound)
    requires Members(done, bound) == GroupsPorts(d.groups[..k])
    requires PortsWithin(done, Cover(bound, lo, counter.id))
    requires NamesGrown(portByName, names0, NestedNameLength(d), lo, counter.id)
    modifies counter
    decreases d, 0
    ensures counter.id >= old(counter.id)
    ensures emitted == Flatten(parts) && PartsAppend(d.groups[..k + 1], parts, nodeName, index, bound)
    ensures Members(emitted, bound) == GroupsPorts(d.groups[..k + 1])
    ensures PortsWithin(emitted, Cover(bound, lo, counter.id))
    ensures NamesGrown(portByName, names, NestedNameLength(d), lo, counter.id)
  {
    assert PortsWithin(AllPorts(d.groups[k]), bound) by {
      PortsWithinAppend([], GroupsPorts(d.groups), bound);
      GroupWithin(d.(children := []), k, bound);
    }
    ghost var c0 := counter.id;
    var more;
    ghost var sub;
    more, names, sub := CreatePortHierarchy(counter, nodeName, d.groups[k], index + |done|, names0, bound);
    EmitStep(d, k, done, more, lo, c0, counter.id, bound);
    NamesGrownTrans(portByName, names0, names, NestedNameLength(d), |d.groups[k].prefix|, lo, c0, counter.id);
    PartsSnoc(d.groups, k, parts0, more, nodeName, index, bound);
    emitted := done + more;
    parts := parts0 + [more];
  }

  // ---------------------------------------------------------------------
  // Sides

  /** A port tree with every side erased: what side propagation leaves alone. */
  function Sideless(p: Port): Port
  {
    p.(side := NORTH, children := SidelessAll(p.children))
  }

  function SidelessAll(ps: seq<Port>): seq<Port>
  {
    seq(|ps|, k requires 0 <= k < |ps| => Sideless(ps[k]))
  }

  /** Every port of the forest, nested ones included, is on `side`. */
  predicate AllOnSide(ps: seq<Port>, side: Side)
  {
    forall k | 0 <= k < |ps| :: ps[k].side == side && AllOnSide(ps[k].children, side)
  }

  /** Erasing the sides and knowing they are all one side loses nothing: two
      forests that agree apart from sides and lie wholly on the same side are
      equal. */
  lemma {:induction false} SidelessOnSideUnique(a: seq<Port>, b: seq<Port>, side: Side)
    requires SidelessAll(a) == SidelessAll(b) && AllOnSide(a, side) && AllOnSide(b, side)
    ensures a == b
  {
    assert |a| == |SidelessAll(a)|;
    forall k | 0 <= k < |a| ensures a[k] == b[k] {
      assert Sideless(a[k]) == SidelessAll(a)[k] == SidelessAll(b)[k] == Sideless(b[k]);
      SidelessOnSideUnique(a[k].children, b[k].children, side);
    }
  }

  /** `setPortSideRec`: every port of the forest, nested ones included, is put
      on `side`; nothing else changes. */
  method SetPortSideRec(ports: seq<Port>, side: Side) returns (r: seq<Port>)
    decreases ports
    ensures SidelessAll(r) == SidelessAll(ports)
    ensures AllOnSide(r, side)
  {
    r := [];
    var i := 0;
    while i < |ports|
      invariant 0 <= i <= |ports| && |r| == i
      invariant forall k | 0 <= k < i :: Sideless(r[k]) == Sideless(ports[k])
      invariant AllOnSide(r, side)
    {
      var kids := SetPortSideRec(ports[i].children, side);
      r := r + [ports[i].(side := side, children := kids)];
      i := i + 1;
    }
  }

  /** `setPortSide`: each top-level port keeps its side and everything under
      it is put on that side; nothing else changes. */
  method SetPortSide(ports: seq<Port>) returns (r: seq<Port>)
    ensures |r| == |ports|
    ensures forall k | 0 <= k < |r| :: r[k].side == ports[k].side && Sideless(r[k]) == Sideless(ports[k])
    ensures forall k | 0 <= k < |r| :: AllOnSide(r[k].children, r[k].side)
  {
    r := [];
    var i := 0;
    while i < |ports|
      invariant 0 <= i <= |ports| && |r| == i
      invariant forall k | 0 <= k < i :: r[k].side == ports[k].side && Sideless(r[k]) == Sideless(ports[k])
      invariant forall k | 0 <= k < i :: AllOnSide(r[k].children, r[k].side)
    {
      var kids := SetPortSideRec(ports[i].children, ports[i].side);
      r := r + [ports[i].(children := kids)];
      i := i + 1;
    }
  }

  // ---------------------------------------------------------------------
  // setPortHierarchy

  /** A port tree with its sides and index values erased: what the pass
      keeps of every original port. */
  function Core(p: Port): Port
  {
    p.(side := NORTH, index := 0, children := Cores(p.children))
  }

  function Cores(ps: seq<Port>): seq<Port>
  {
    seq(|ps|, k requires 0 <= k < |ps| => Core(ps[k]))
  }

  lemma CoresAppend(a: seq<Port>, b: seq<Port>)
    ensures Cores(a + b) == Cores(a) + Cores(b)
  {
    assert forall k | 0 <= k < |a + b| :: Cores(a + b)[k] == (Cores(a) + Cores(b))[k] by {
      forall k | 0 <= k < |a + b| ensures Cores(a + b)[k] == (Cores(a) + Cores(b))[k] {
        if k < |a| { assert (a + b)[k] == a[k]; } else { assert (a + b)[k] == b[k - |a|]; }
      }
    }
  }

  /** Ports that differ only in their sides have the same core. */
  lemma {:induction false} CoreOfSideless(p: Port, q: Port)
    requires Sideless(p) == Sideless(q)
    ensures Core(p) == Core(q)
    decreases p
  {
    assert |p.children| == |SidelessAll(p.children)| == |SidelessAll(q.children)| == |q.children|;
    forall k | 0 <= k < |p.children| ensures Core(p.children[k]) == Core(q.children[k]) {
      assert SidelessAll(p.children)[k] == SidelessAll(q.children)[k];
      CoreOfSideless(p.children[k], q.children[k]);
    }
  }

  /** Ports that differ only in their index values have the same core. */
  lemma {:induction false} CoreOfShape(p: Port, q: Port)
    requires Shape(p) == Shape(q)
    ensures Core(p) == Core(q)
    decreases p, 1
  {
    CoresOfShapes(p.children, q.children);
  }

  lemma {:induction false} ShapesLength(a: seq<Port>)
    ensures |Shapes(a)| == |a|
  {
    if a != [] {
      ShapesLength(a[1..]);
    }
  }

  /** Equal shapes agree port by port, first port and the rest. */
  lemma ShapesUncons(a: seq<Port>, b: seq<Port>)
    requires Shapes(a) == Shapes(b)
    ensures |a| == |b|
    ensures a != [] ==> Shape(a[0]) == Shape(b[0]) && Shapes(a[1..]) == Shapes(b[1..])
  {
    ShapesLength(a);
    ShapesLength(b);
    if a != [] {
      assert Shapes(a)[0] == Shape(a[0]) && Shapes(a)[1..] == Shapes(a[1..]);
      assert Shapes(b)[0] == Shape(b[0]) && Shapes(b)[1..] == Shapes(b[1..]);
    }
  }

  lemma {:induction false} CoresOfShapes(a: seq<Port>, b: seq<Port>)
    requires Shapes(a) == Shapes(b)
    ensures Cores(a) == Cores(b)
    decreases a, 0
  {
    ShapesUncons(a, b);
    if a != [] {
      CoreOfShape(a[0], b[0]);
      CoresOfShapes(a[1..], b[1..]);
      assert a == [a[0]] + a[1..] && b == [b[0]] + b[1..];
      CoresAppend([a[0]], a[1..]);
      CoresAppend([b[0]], b[1..]);
    }
  }

  /** Erasing sides and index values commutes with finding the originals:
      a core keeps every id. */
  lemma {:induction false} MembersOfCores(a: seq<Port>, top: int)
    ensures Members(Cores(a), top) == Cores(Members(a, top))
    decreases a, 0
  {
    if a != [] {
      assert a == [a[0]] + a[1..];
      CoresAppend([a[0]], a[1..]);
      assert Cores(a)[1..] == Cores(a[1..]);
      MembersOfCores(a[1..], top);
      MemberOfCore(a[0], top);
      CoresAppend(MembersOf(a[0], top), Members(a[1..], top));
    }
  }

  lemma {:induction false} MemberOfCore(p: Port, top: int)
    ensures MembersOf(Core(p), top) == Cores(MembersOf(p, top))
    decreases p, 1
  {
    if p.id > top {
      MembersOfCores(p.children, top);
    }
  }

  /** The first port of `a` sits somewhere in a reordering `b`; the rest of
      `a` is a reordering of `b` without it. */
  lemma PermuteUncons(a: seq<Port>, b: seq<Port>) returns (j: nat)
    requires multiset(a) == multiset(b) && a != []
    ensures j < |b| && b[j] == a[0] && b == b[..j] + [b[j]] + b[j + 1..]
    ensures multiset(a[1..]) == multiset(b[..j] + b[j + 1..])
  {
    assert a[0] in multiset(b);
    j :| 0 <= j < |b| && b[j] == a[0];
    var rest := b[..j] + b[j + 1..];
    assert b == b[..j] + [b[j]] + b[j + 1..];
    assert a == [a[0]] + a[1..];
    assert multiset(b) == multiset(b[..j]) + multiset{b[j]} + multiset(b[j + 1..]);
    assert multiset(rest) == multiset(b[..j]) + multiset(b[j + 1..]);
    assert multiset(a) == multiset{a[0]} + multiset(a[1..]);
    assert multiset(a[1..]) == multiset(a) - multiset{a[0]};
    assert multiset(rest) == multiset(b) - multiset{b[j]};
  }

  /** Reordering a forest reorders its originals. */
  lemma {:induction false} MembersPermute(a: seq<Port>, b: seq<Port>, top: int)
    requires multiset(a) == multiset(b)
    ensures multiset(Members(a, top)) == multiset(Members(b, top))
    decreases |a|
  {
    if a != [] {
      var j := PermuteUncons(a, b);
      MembersPermute(a[1..], b[..j] + b[j + 1..], top);
      MembersAppend(b[..j] + [b[j]], b[j + 1..], top);
      MembersAppend(b[..j], [b[j]], top);
      MembersAppend(b[..j], b[j + 1..], top);
      assert Members([b[j]], top) == MembersOf(b[j], top);
    } else {
      assert b == [];
    }
  }

  /** Reordering a forest reorders its cores. */
  lemma {:induction false} CoresPermute(a: seq<Port>, b: seq<Port>)
    requires multiset(a) == multiset(b)
    ensures multiset(Cores(a)) == multiset(Cores(b))
    decreases |a|
  {
    if a != [] {
      var j := PermuteUncons(a, b);
      CoresPermute(a[1..], b[..j] + b[j + 1..]);
      CoresAppend(b[..j] + [b[j]], b[j + 1..]);
      CoresAppend(b[..j], [b[j]]);
      CoresAppend(b[..j], b[j + 1..]);
      assert a == [a[0]] + a[1..];
      CoresAppend([a[0]], a[1..]);
    } else {
      assert b == [];
    }
  }

  /** The id bound of a port tree depends on its ids alone. */
  lemma {:induction false} CoreWithin(p: Port, m: int)
    ensures CheckMaxIdPorts(m, p) <==> CheckMaxIdPorts(m, Core(p))
    decreases p
  {
    assert Core(p).children == Cores(p.children);
    forall k | 0 <= k < |p.children|
      ensures CheckMaxIdPorts(m, p.children[k]) <==> CheckMaxIdPorts(m, Core(p).children[k])
    {
      CoreWithin(p.children[k], m);
    }
  }

  lemma PortsWithinCores(a: seq<Port>, b: seq<Port>, m: int)
    requires Cores(a) == Cores(b) && PortsWithin(a, m)
    ensures PortsWithin(b, m)
  {
    assert |a| == |Cores(a)| == |Cores(b)| == |b|;
    forall k | 0 <= k < |b| ensures CheckMaxIdPorts(m, b[k]) {
      CoreWithin(a[k], m);
      CoreWithin(b[k], m);
      assert Core(a[k]) == Cores(a)[k] == Cores(b)[k] == Core(b[k]);
    }
  }

  lemma PortsWithinPermute(a: seq<Port>, b: seq<Port>, m: int)
    requires multiset(a) == multiset(b) && PortsWithin(a, m)
    ensures PortsWithin(b, m)
  {
    forall k | 0 <= k < |b| ensures CheckMaxIdPorts(m, b[k]) {
      assert b[k] in multiset(a);
    }
  }

  /** The ports under each top-level port lie on its side. */
  predicate SidesForced(ps: seq<Port>)
  {
    forall k | 0 <= k < |ps| :: AllOnSide(ps[k].children, ps[k].side)
  }

  lemma {:induction false} OnSideOfShapes(a: seq<Port>, b: seq<Port>, side: Side)
    requires Shapes(a) == Shapes(b) && AllOnSide(b, side)
    ensures AllOnSide(a, side)
    decreases a
  {
    ShapesUncons(a, b);
    if a != [] {
      OnSideOfShapes(a[0].children, b[0].children, side);
      OnSideOfShapes(a[1..], b[1..], side);
      assert forall k | 1 <= k < |a| :: a[k] == a[1..][k - 1];
    }
  }

  lemma {:induction false} SidesForcedShapes(a: seq<Port>, b: seq<Port>)
    requires Shapes(a) == Shapes(b) && SidesForced(b)
    ensures SidesForced(a)
    decreases a
  {
    ShapesUncons(a, b);
    if a != [] {
      OnSideOfShapes(a[0].children, b[0].children, b[0].side);
      SidesForcedShapes(a[1..], b[1..]);
      assert forall k | 1 <= k < |a| :: a[k] == a[1..][k - 1];
    }
  }

  lemma SidesForcedPermute(a: seq<Port>, b: seq<Port>)
    requires multiset(a) == multiset(b) && SidesForced(a)
    ensures SidesForced(b)
  {
    forall k | 0 <= k < |b| ensures AllOnSide(b[k].children, b[k].side) {
      assert b[k] in multiset(a);
    }
  }

  lemma {:induction false} PortCountOfShapes(a: seq<Port>, b: seq<Port>)
    requires Shapes(a) == Shapes(b)
    ensures PortCount(a) == PortCount(b)
    decreases a
  {
    ShapesUncons(a, b);
    if a != [] {
      PortCountOfShapes(a[0].children, b[0].children);
      PortCountOfShapes(a[1..], b[1..]);
    }
  }

  /** What the pass does to the ports, start to end: the originals of the
      reordered forest, with sides and index values erased, are the
      original ports, and the id bound carries over. */
  lemma HierarchyKeeps(orig: seq<Port>, d: NameDict, emitted: seq<Port>, sided: seq<Port>, ordered: seq<Port>,
                       bound: int, m: int)
    requires multiset(AllPorts(d)) == multiset(orig)
    requires Members(emitted, bound) == AllPorts(d) && PortsWithin(emitted, m)
    requires |sided| == |emitted| && forall k | 0 <= k < |sided| :: Sideless(sided[k]) == Sideless(emitted[k])
    requires Shapes(ordered) == Shapes(ElkOrder(sided))
    ensures multiset(Cores(Members(ordered, bound))) == multiset(Cores(orig))
    ensures multiset(Cores(ordered)) == multiset(Cores(emitted))
    ensures PortsWithin(ordered, m)
  {
    assert Cores(sided) == Cores(emitted) by {
      forall k | 0 <= k < |sided| ensures Core(sided[k]) == Core(emitted[k]) {
        CoreOfSideless(sided[k], emitted[k]);
      }
    }
    CoresOfShapes(ordered, ElkOrder(sided));
    ElkOrderPermutes(sided);
    CoresPermute(ElkOrder(sided), sided);
    MembersPermute(Cores(ordered), Cores(emitted), bound);
    MembersOfCores(ordered, bound);
    MembersOfCores(emitted, bound);
    CoresPermute(AllPorts(d), orig);
    PortsWithinCores(emitted, sided, m);
    PortsWithinPermute(sided, ElkOrder(sided), m);
    PortsWithinCores(ElkOrder(sided), ordered, m);
  }

  /** The reordered forest keeps the sides forced on it and is numbered
      clockwise from 0. */
  lemma HierarchyOrdered(sided: seq<Port>, ordered: seq<Port>)
    requires SidesForced(sided)
    requires Shapes(ordered) == Shapes(ElkOrder(sided))
    requires NumberingOrder(ordered) == Consecutive(0, PortCount(ElkOrder(sided)))
    ensures SidesForced(ordered)
    ensures NumberingOrder(ordered) == Consecutive(0, PortCount(ordered))
  {
    ElkOrderPermutes(sided);
    SidesForcedPermute(sided, ElkOrder(sided));
    SidesForcedShapes(ordered, ElkOrder(sided));
    PortCountOfShapes(ordered, ElkOrder(sided));
  }

  /** How the ports are grouped: `trie` is their name trie, `emitted` what
      `createPortHierarchy` appends for it to an empty list, and `parts`
      what its nested groups append, each a single port or one header. */
  ghost predicate Hierarchy(ports: seq<Port>, trie: NameDict, emitted: seq<Port>, parts: seq<seq<Port>>,
                            nodeName: string, bound: int)
  {
    && NameTrie(ports, trie) && Appends(trie, emitted, nodeName, 0, bound)
    && (HasMultipleChildren(trie) ==> LevelOf(trie, emitted, parts, nodeName, 0, bound))
  }

  /** The body of `setPortHierarchy` for more than one port: group, force
      sides, reorder. `bound` covers the ids of the ports. */
  method RegroupPorts(counter: IdCounter, nodeName: string, ports: seq<Port>, portByName: map<string, nat>,
                      ghost bound: int)
    returns (r: seq<Port>, names: map<string, nat>, ghost trie: NameDict, ghost emitted: seq<Port>,
             ghost parts: seq<seq<Port>>)
    requires |ports| > 1 && PortsWithin(ports, bound) && bound < counter.id
    modifies counter
    ensures counter.id >= old(counter.id)
    ensures Hierarchy(ports, trie, emitted, parts, nodeName, bound)
    ensures multiset(Cores(r)) == multiset(Cores(emitted))
    ensures multiset(Cores(Members(r, bound))) == multiset(Cores(ports))
    ensures PortsWithin(r, Cover(bound, old(counter.id), counter.id))
    ensures SidesForced(r) && NumberingOrder(r) == Consecutive(0, PortCount(r))
    ensures NamesGrown(portByName, names, 0, old(counter.id), counter.id)
  {
    var d := GetPortStartNameToPorts(ports);
    trie := d;
    PortsWithinPermute(ports, AllPorts(d), bound);
    var list;
    list, names, parts := CreatePortHierarchy(counter, nodeName, d, 0, portByName, bound);
    emitted := list;
    var sided := SetPortSide(list);
    r := ConvertPortOrderingFromYosysToElk(sided);
    HierarchyKeeps(ports, d, list, sided, r, bound, Cover(bound, old(counter.id), counter.id));
    HierarchyOrdered(sided, r);
  }

  /** What `setPortHierarchy` makes of a node while the counter goes from
      `c0` to `c1`: a node with at most one port is left alone; otherwise
      the ports are regrouped by the name trie (`Hierarchy`), the sides are
      forced down and the numbering is consecutive; either way the old
      ports survive as members, nothing but the ports and `maxId` changes,
      and `maxId` covers the new headers. */
  ghost predicate Regrouped(node: Node, r: Node, c0: nat, c1: nat)
  {
    && node.maxId.Some?
    && r == node.(ports := r.ports, maxId := r.maxId)
    && r.maxId == Some(Cover(node.maxId.value, c0, c1))
    && multiset(Cores(Members(r.ports, node.maxId.value))) == multiset(Cores(node.ports))
    && CheckMaxId(r)
    && (|node.ports| <= 1 ==> r == node && c1 == c0)
    && (|node.ports| > 1 ==>
          && SidesForced(r.ports) && NumberingOrder(r.ports) == Consecutive(0, PortCount(r.ports))
          && exists trie, emitted, parts ::
               Hierarchy(node.ports, trie, emitted, parts, node.name, node.maxId.value)
               && multiset(Cores(r.ports)) == multiset(Cores(emitted)))
  }

  /** `setPortHierarchy` on a node that passes `checkMaxId`, with header ids
      drawn from `counter` and registered in `portByName`. A node with at
      most one port is left alone. Otherwise its ports are grouped under
      headers by name, every port under a top-level port is put on that
      port's side, and the top-level ports are put into clockwise order and
      numbered. The originals are all still there, exactly once each; the
      node's `maxId` covers the new headers; nothing else of the node
      changes. */
  method SetPortHierarchy(counter: IdCounter, node: Node, portByName: map<string, nat>)
    returns (r: Node, names: map<string, nat>, ghost trie: NameDict, ghost emitted: seq<Port>,
             ghost parts: seq<seq<Port>>)
    requires CheckMaxId(node) && node.maxId.value < counter.id
    modifies counter
    ensures counter.id >= old(counter.id)
    ensures |node.ports| <= 1 ==> r == node && names == portByName && counter.id == old(counter.id)
    ensures r == node.(ports := r.ports, maxId := r.maxId)
    ensures r.maxId == Some(Cover(node.maxId.value, old(counter.id), counter.id))
    ensures multiset(Cores(Members(r.ports, node.maxId.value))) == multiset(Cores(node.ports))
    ensures |node.ports| > 1 ==> SidesForced(r.ports) && NumberingOrder(r.ports) == Consecutive(0, PortCount(r.ports))
    ensures |node.ports| > 1 ==> Hierarchy(node.ports, trie, emitted, parts, node.name, node.maxId.value)
    ensures |node.ports| > 1 ==> multiset(Cores(r.ports)) == multiset(Cores(emitted))
    ensures CheckMaxId(r)
    ensures NamesGrown(portByName, names, 0, old(counter.id), counter.id)
    ensures Regrouped(node, r, old(counter.id), counter.id)
  {
    ghost var bound := node.maxId.value;
    var start := counter.id;
    CheckMaxIdIsContentWithin(node);
    if |node.ports| <= 1 {
      r, names := node, portByName;
      trie, emitted, parts := NameDict("", [], [], []), node.ports, [];
      forall k | 0 <= k < |node.ports| ensures node.ports[k].id <= bound {
        assert CheckMaxIdPorts(bound, node.ports[k]);
      }
      MembersOfOriginals(node.ports, bound);
      return;
    }
    r, names, trie, emitted, parts := RegroupNode(counter, node, portByName);
  }

  /** The part of `SetPortHierarchy` for a node with at least two ports. */
  method RegroupNode(counter: IdCounter, node: Node, portByName: map<string, nat>)
    returns (r: Node, names: map<string, nat>, ghost trie: NameDict, ghost emitted: seq<Port>,
             ghost parts: seq<seq<Port>>)
    requires CheckMaxId(node) && node.maxId.value < counter.id && |node.ports| > 1
    modifies counter
    ensures counter.id >= old(counter.id)
    ensures r == node.(ports := r.ports, maxId := r.maxId)
    ensures r.maxId == Some(Cover(node.maxId.value, old(counter.id), counter.id))
    ensures multiset(Cores(Members(r.ports, node.maxId.value))) == multiset(Cores(node.ports))
    ensures SidesForced(r.ports) && NumberingOrder(r.ports) == Consecutive(0, PortCount(r.ports))
    ensures Hierarchy(node.ports, trie, emitted, parts, node.name, node.maxId.value)
    ensures multiset(Cores(r.ports)) == multiset(Cores(emitted))
    ensures CheckMaxId(r)
    ensures NamesGrown(portByName, names, 0, old(counter.id), counter.id)
  {
    ghost var bound := node.maxId.value;
    var start := counter.id;
    CheckMaxIdIsContentWithin(node);
    var ports;
    ports, names, trie, emitted, parts := RegroupPorts(counter, node.name, node.ports, portByName, bound);
    var top := if counter.id == start then node.maxId.value else counter.id - 1;
    RenumberedWithin(node, ports, top);
    r := node.(ports := ports, maxId := Some(top));
  }

  /** Replacing a node's ports by ports within `m`, and raising its `maxId`
      to `m`, keeps `checkMaxId`. */
  lemma RenumberedWithin(node: Node, ports: seq<Port>, m: int)
    requires CheckMaxId(node) && node.maxId.value <= m && PortsWithin(ports, m)
    ensures CheckMaxId(node.(ports := ports, maxId := Some(m)))
  {
    var r := node.(ports := ports, maxId := Some(m));
    CheckMaxIdIsContentWithin(node);
    ContentWithinMonotone(node, node.maxId.value, m);
    assert Kids(r) == Kids(node) && EdgesOf(r) == EdgesOf(node);
    CheckMaxIdIsContentWithin(r);
  }
}
