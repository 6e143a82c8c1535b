/** The values the node builder of src/yosysLNodeBuilder.js computes with
    while it turns the nets of a module into edges: runs of constant bits,
    the state of the net-to-edge translation, the duplicate-edge filter and
    the choice of endpoint list for ports created late. */
module LNodeValues {
  import opened Outcomes
  import opened Graph
  import opened Netlist
  import opened ObjectIdChecks
  import opened YosysUtils
  import ConcatSplit

  // ---------------------------------------------------------------------
  // Runs of constant bits

  /** How many constant bits follow from position `i` on. */
  function RunLength(bits: seq<Bit>, i: nat): (n: nat)
    requires i <= |bits|
    ensures i + n <= |bits|
    ensures forall k | i <= k < i + n :: bits[k].Const?
    ensures i + n == |bits| || bits[i + n].Net?
    decreases |bits| - i
  {
    if i == |bits| || bits[i].Net? then 0 else 1 + RunLength(bits, i + 1)
  }

  /** The constant values of a stretch of constant bits. */
  function Values(bits: seq<Bit>): (r: seq<string>)
    requires forall k | 0 <= k < |bits| :: bits[k].Const?
    ensures |r| == |bits| && forall k | 0 <= k < |bits| :: r[k] == bits[k].value
  {
    seq(|bits|, k requires 0 <= k < |bits| => bits[k].value)
  }

  /** The values of the run of constant bits from position `i` on. */
  function RunAt(bits: seq<Bit>, i: nat): seq<string>
    requires i <= |bits|
  {
    Values(bits[i..i + RunLength(bits, i)])
  }

  /** The maximal runs of constant bits from position `i` on, in order,
      each as its list of values. */
  function Runs(bits: seq<Bit>, i: nat): seq<seq<string>>
    requires i <= |bits|
    decreases |bits| - i
  {
    if i == |bits| then []
    else if bits[i].Net? then Runs(bits, i + 1)
    else
      var n := RunLength(bits, i);
      [Values(bits[i..i + n])] + Runs(bits, i + n)
  }

  /** A vector without constant bits has no run; one made only of constant
      bits is a single run. */
  lemma {:induction false} RunsOfNets(bits: seq<Bit>, i: nat)
    requires i <= |bits| && forall k | i <= k < |bits| :: bits[k].Net?
    ensures Runs(bits, i) == []
    decreases |bits| - i
  {
    if i < |bits| {
      RunsOfNets(bits, i + 1);
    }
  }

  lemma RunsOfConsts(bits: seq<Bit>)
    requires |bits| > 0 && forall k | 0 <= k < |bits| :: bits[k].Const?
    ensures Runs(bits, 0) == [Values(bits)]
  {
    var n := RunLength(bits, 0);
    assert bits[0..n] == bits;
  }

  // ---------------------------------------------------------------------
  // Where an edge's name comes from

  /** The name a new edge gets: the net name of the module (which knows no
      constant), or the name of the module port being scanned. */
  datatype NameSource = NetNames(names: map<int, string>) | PortNamed(portName: string)

  function NameOf(src: NameSource, b: Bit): (r: Option<string>)
    ensures src.PortNamed? ==> r == Some(src.portName)
    ensures src.NetNames? && b.Const? ==> r.None?
  {
    match src
    case NetNames(m) => if b.Net? && b.net in m then Some(m[b.net]) else None
    case PortNamed(s) => Some(s)
  }

  // ---------------------------------------------------------------------
  // The state of edge loading

  /** What `loadLNodeEdgesFromYosysModule` threads through its helpers: the
      edges made so far by id, the bit-to-edge dictionary, the edges in the
      order they were made, the ids of the constant nodes, and the parent's
      children (constant nodes are appended to them). */
  datatype Wiring = Wiring(edges: map<nat, Edge>, edgeOf: map<Bit, nat>, order: seq<nat>, consts: set<nat>,
                           children: seq<Node>)

  /** The ids of a list of nodes, the parent's first. */
  function Family(parentId: nat, children: seq<Node>): seq<nat>
  {
    [parentId] + ConcatSplit.ChildIds(children)
  }

  /** The edges of the wiring are consistent with a counter at `c` when
      every edge made since `lo` is stored under its id, every dictionary
      entry and every entry of the order names a stored edge, and the order
      repeats none and lists every edge. */
  ghost predicate EdgesOk(w: Wiring, lo: int, c: int)
  {
    && (forall e | e in w.edges :: w.edges[e].id == e && lo <= e < c && e in w.order)
    && (forall b | b in w.edgeOf :: w.edgeOf[b] in w.edges)
    && Distinct(w.order) && (forall k | 0 <= k < |w.order| :: w.order[k] in w.edges)
  }

  /** The children of a parent are consistent with a counter at `c` when
      each passes `checkMaxId` below the counter and no id repeats among
      the parent and its children. */
  predicate KidsOk(parentId: nat, children: seq<Node>, c: int)
  {
    ChildrenWithin(children, c - 1) && parentId < c && Distinct(Family(parentId, children))
  }

  /** The wiring is consistent with a counter at `c`: its edges and the
      parent's children both are. */
  ghost predicate WiringOk(w: Wiring, parentId: nat, lo: int, c: int)
  {
    EdgesOk(w, lo, c) && KidsOk(parentId, w.children, c)
  }

  /** `b` extends `a`: edges keep their id and name and only gain
      endpoints at the end of their lists, a net keeps its edge, the order
      and the children only grow at the end and no constant is forgotten. */
  ghost predicate Grown(a: Wiring, b: Wiring)
  {
    && (forall e | e in a.edges :: e in b.edges && Extends(a.edges[e], b.edges[e]))
    && (forall x | x in a.edgeOf :: x in b.edgeOf && (x.Net? ==> b.edgeOf[x] == a.edgeOf[x]))
    && |a.order| <= |b.order| && b.order[..|a.order|] == a.order
    && |a.children| <= |b.children| && b.children[..|a.children|] == a.children
    && a.consts <= b.consts
  }

  predicate Extends(a: Edge, b: Edge)
  {
    && a.id == b.id && a.name == b.name
    && |a.sources| <= |b.sources| && b.sources[..|a.sources|] == a.sources
    && |a.targets| <= |b.targets| && b.targets[..|a.targets|] == a.targets
  }

  lemma GrownTrans(a: Wiring, b: Wiring, c: Wiring)
    requires Grown(a, b) && Grown(b, c)
    ensures Grown(a, c)
  {
    forall e | e in a.edges ensures e in c.edges && Extends(a.edges[e], c.edges[e]) {
      var x, y, z := a.edges[e], b.edges[e], c.edges[e];
      assert z.sources[..|x.sources|] == z.sources[..|y.sources|][..|x.sources|];
      assert z.targets[..|x.targets|] == z.targets[..|y.targets|][..|x.targets|];
    }
    assert c.order[..|a.order|] == c.order[..|b.order|][..|a.order|];
    assert c.children[..|a.children|] == c.children[..|b.children|][..|a.children|];
  }

  lemma GrownRefl(a: Wiring)
    ensures Grown(a, a)
  {
    assert a.order[..|a.order|] == a.order;
    assert a.children[..|a.children|] == a.children;
    forall e | e in a.edges ensures Extends(a.edges[e], a.edges[e]) {
      var x := a.edges[e];
      assert x.sources[..|x.sources|] == x.sources;
      assert x.targets[..|x.targets|] == x.targets;
    }
  }

  /** The list of an edge that an endpoint of the given role joins. */
  function RoleList(e: Edge, role: Role): seq<Endpoint>
  {
    if role == SourceRole then e.sources else e.targets
  }

  /** An endpoint joins the list of its role, at the end. */
  function Joined(e: Edge, role: Role, ep: Endpoint): (r: Edge)
    ensures Extends(e, r) && ep in RoleList(r, role)
    ensures RoleList(r, role) == RoleList(e, role) + [ep]
    ensures (if role == SourceRole then r.targets == e.targets else r.sources == e.sources)
  {
    if role == SourceRole then e.(sources := e.sources + [ep]) else e.(targets := e.targets + [ep])
  }

  /** An endpoint in a list of an edge stays there as the edge grows. */
  lemma ExtendsKeeps(a: Edge, b: Edge, role: Role, ep: Endpoint)
    requires Extends(a, b) && ep in RoleList(a, role)
    ensures ep in RoleList(b, role)
  {
    var k :| 0 <= k < |RoleList(a, role)| && RoleList(a, role)[k] == ep;
    if role == SourceRole {
      assert b.sources[..|a.sources|][k] == ep;
    } else {
      assert b.targets[..|a.targets|][k] == ep;
    }
  }

  /** A node built for a run of constant bits: named `nodeName`, with
      one output port "O0" on the east side at index 0 and neither
      children nor edges. */
  predicate ConstNodeFor(n: Node, nodeName: string)
  {
    && n.name == nodeName && n.cls == ""
    && |n.ports| == 1 && n.ports[0].id == n.id + 1 && n.ports[0].name == "O0"
    && n.ports[0].direction == OUTPUT && n.ports[0].side == EAST && n.ports[0].index == 0
    && n.ports[0].children == []
    && n.childrenAt == Absent && n.edgesAt == Absent && n.children == [] && n.edges == []
  }

  /** Every constant node drives some edge: it is the first source of it. */
  ghost predicate ConstsDrive(w: Wiring)
  {
    forall c | c in w.consts :: exists e | e in w.edges ::
      |w.edges[e].sources| > 0 && w.edges[e].sources[0] == Endpoint(c, c + 1)
  }

  lemma GrownKeepsDrive(a: Wiring, b: Wiring, c: nat)
    requires Grown(a, b) && c in a.consts
    requires exists e | e in a.edges :: |a.edges[e].sources| > 0 && a.edges[e].sources[0] == Endpoint(c, c + 1)
    ensures exists e | e in b.edges :: |b.edges[e].sources| > 0 && b.edges[e].sources[0] == Endpoint(c, c + 1)
  {
    var e :| e in a.edges && |a.edges[e].sources| > 0 && a.edges[e].sources[0] == Endpoint(c, c + 1);
    assert b.edges[e].sources[..|a.edges[e].sources|][0] == Endpoint(c, c + 1);
  }

  // ---------------------------------------------------------------------
  // Steps of edge loading

  lemma ChildrenWithinMonotone(cs: seq<Node>, m: int, m': int)
    requires m <= m' && ChildrenWithin(cs, m)
    ensures ChildrenWithin(cs, m')
  {
  }

  /** The counter only moves up, so a consistent wiring stays consistent. */
  lemma WiringOkMonotone(w: Wiring, parentId: nat, lo: int, c: int, c': int)
    requires c <= c' && WiringOk(w, parentId, lo, c)
    ensures WiringOk(w, parentId, lo, c')
  {
    KidsOkMonotone(parentId, w.children, c, c');
  }

  lemma EdgesOkMonotone(w: Wiring, lo: int, c: int, c': int)
    requires c <= c' && EdgesOk(w, lo, c)
    ensures EdgesOk(w, lo, c')
  {
  }

  lemma KidsOkMonotone(parentId: nat, cs: seq<Node>, c: int, c': int)
    requires c <= c' && KidsOk(parentId, cs, c)
    ensures KidsOk(parentId, cs, c')
  {
    ChildrenWithinMonotone(cs, c - 1, c' - 1);
  }

  /** A node whose id is at or above the counter can join children that
      are all below it without an id repeating. */
  lemma FamilyAppend(parentId: nat, cs: seq<Node>, x: Node, c: int)
    requires Distinct(Family(parentId, cs)) && parentId < c && ChildrenWithin(cs, c - 1) && x.id >= c
    ensures Distinct(Family(parentId, cs + [x]))
  {
    var f := Family(parentId, cs + [x]);
    assert f == Family(parentId, cs) + [x.id];
    forall i | 0 <= i < |f| - 1 ensures f[i] < c {
      if i > 0 {
        assert CheckMaxId(cs[i - 1]);
      }
    }
  }

  /** A child passing `checkMaxId` below the new counter, whose id is at or
      above the old one, keeps the children consistent. */
  lemma KidsOkSnoc(parentId: nat, cs: seq<Node>, x: Node, c: int, c': int)
    requires KidsOk(parentId, cs, c) && CheckMaxId(x) && c <= x.id && x.maxId.value < c' && c <= c'
    ensures KidsOk(parentId, cs + [x], c')
  {
    FamilyAppend(parentId, cs, x, c);
    ChildrenWithinMonotone(cs, c - 1, c' - 1);
    ChildrenWithinAppend(cs, x, c' - 1);
  }

  /** A child that passes `checkMaxId` below the bound joins children that
      do. */
  lemma ChildrenWithinAppend(cs: seq<Node>, x: Node, m: int)
    requires ChildrenWithin(cs, m) && CheckMaxId(x) && x.maxId.value <= m
    ensures ChildrenWithin(cs + [x], m)
  {
    forall k | 0 <= k < |cs| + 1 ensures CheckMaxId((cs + [x])[k]) && (cs + [x])[k].maxId.value <= m {
      if k < |cs| { assert (cs + [x])[k] == cs[k]; }
    }
  }

  /** The wiring after a new edge without endpoints, drawn at the counter,
      is stored for `bit`. */
  function WithEdge(w: Wiring, bit: Bit, e: Edge): Wiring
  {
    w.(edges := w.edges[e.id := e], edgeOf := w.edgeOf[bit := e.id], order := w.order + [e.id])
  }

  lemma WithEdgeGrown(w: Wiring, bit: Bit, e: Edge)
    requires e.id !in w.edges && (bit.Net? ==> bit !in w.edgeOf)
    ensures Grown(w, WithEdge(w, bit, e))
  {
    var v := WithEdge(w, bit, e);
    assert v.order[..|w.order|] == w.order;
    assert v.children[..|w.children|] == w.children;
    forall x | x in w.edges ensures Extends(w.edges[x], v.edges[x]) {
      var y := w.edges[x];
      assert y.sources[..|y.sources|] == y.sources && y.targets[..|y.targets|] == y.targets;
    }
  }

  /** Constant nodes keep driving their edges as the wiring grows. */
  lemma DriveKept(a: Wiring, b: Wiring)
    requires Grown(a, b) && ConstsDrive(a) && b.consts == a.consts
    ensures ConstsDrive(b)
  {
    forall d | d in b.consts
      ensures exists x | x in b.edges :: |b.edges[x].sources| > 0 && b.edges[x].sources[0] == Endpoint(d, d + 1)
    {
      GrownKeepsDrive(a, b, d);
    }
  }

  /** A new edge drawn at the counter keeps the edges consistent. */
  lemma WithEdgeOk(w: Wiring, bit: Bit, e: Edge, lo: int, c: nat)
    requires EdgesOk(w, lo, c) && lo <= c && e.id == c
    ensures EdgesOk(WithEdge(w, bit, e), lo, c + 1)
  {
    var v := WithEdge(w, bit, e);
    assert c !in w.edges;
    forall x | x in v.edges ensures v.edges[x].id == x && lo <= x < c + 1 && x in v.order {
      if x != c { assert x in w.edges; }
    }
    forall k | 0 <= k < |v.order| ensures v.order[k] in v.edges {
      if k < |w.order| { assert v.order[k] == w.order[k]; }
    }
    assert Distinct(v.order) by {
      forall i, j | 0 <= i < j < |v.order| ensures v.order[i] != v.order[j] {
        if j == |w.order| { assert w.order[i] in w.edges; }
      }
    }
  }

  /** The wiring after endpoint `ep` joins the `role` list of edge `eid`. */
  function WithJoined(w: Wiring, eid: nat, role: Role, ep: Endpoint): Wiring
    requires eid in w.edges
  {
    w.(edges := w.edges[eid := Joined(w.edges[eid], role, ep)])
  }

  /** An endpoint joining an edge keeps the edges consistent. */
  lemma WithJoinedOk(w: Wiring, eid: nat, role: Role, ep: Endpoint, lo: int, c: int)
    requires EdgesOk(w, lo, c) && eid in w.edges
    ensures EdgesOk(WithJoined(w, eid, role, ep), lo, c)
  {
  }

  /** An endpoint joining an edge only extends the wiring, and the edge
      then holds it in the list of its role. */
  lemma WithJoinedGrown(w: Wiring, eid: nat, role: Role, ep: Endpoint)
    requires eid in w.edges
    ensures Grown(w, WithJoined(w, eid, role, ep))
    ensures ep in RoleList(WithJoined(w, eid, role, ep).edges[eid], role)
  {
    var v := WithJoined(w, eid, role, ep);
    assert v.order[..|w.order|] == w.order;
    assert v.children[..|w.children|] == w.children;
    forall x | x in w.edges ensures Extends(w.edges[x], v.edges[x]) {
      var y := w.edges[x];
      assert y.sources[..|y.sources|] == y.sources && y.targets[..|y.targets|] == y.targets;
    }
  }

  lemma WithJoinedDrives(w: Wiring, eid: nat, role: Role, ep: Endpoint)
    requires eid in w.edges && ConstsDrive(w)
    ensures ConstsDrive(WithJoined(w, eid, role, ep))
  {
    WithJoinedGrown(w, eid, role, ep);
    DriveKept(w, WithJoined(w, eid, role, ep));
  }

  /** A new edge without endpoints keeps every constant node driving. */
  lemma WithEdgeDrives(w: Wiring, bit: Bit, e: Edge)
    requires e.id !in w.edges && (bit.Net? ==> bit !in w.edgeOf) && ConstsDrive(w)
    ensures ConstsDrive(WithEdge(w, bit, e))
  {
    WithEdgeGrown(w, bit, e);
    DriveKept(w, WithEdge(w, bit, e));
  }

  /** An endpoint on the edge of a net stays there as the wiring grows. */
  lemma GrownKeepsEndpoint(a: Wiring, b: Wiring, bit: Bit, role: Role, ep: Endpoint)
    requires Grown(a, b) && bit.Net? && bit in a.edgeOf && a.edgeOf[bit] in a.edges
    requires ep in RoleList(a.edges[a.edgeOf[bit]], role)
    ensures bit in b.edgeOf && b.edgeOf[bit] in b.edges && ep in RoleList(b.edges[b.edgeOf[bit]], role)
  {
    ExtendsKeeps(a.edges[a.edgeOf[bit]], b.edges[a.edgeOf[bit]], role, ep);
  }

  /** Where a run of constant bits that starts at `i` ends, found by
      scanning: the run length. */
  lemma {:induction false} RunLengthIs(bits: seq<Bit>, i: nat, j: nat)
    requires i <= j <= |bits| && (forall k | i <= k < j :: bits[k].Const?) && (j == |bits| || bits[j].Net?)
    ensures RunLength(bits, i) == j - i
    decreases j - i
  {
    if i < j {
      RunLengthIs(bits, i + 1, j);
    }
  }

  // ---------------------------------------------------------------------
  // Duplicate edges

  /** Two edges count as duplicates when their source and target lists are
      equal. (The source keys them by the string of
      `[sources, null, targets]`; as every endpoint is a pair of ids and the
      `null` leaves an empty field between the lists, equal strings mean
      equal lists.) */
  function Key(e: Edge): (seq<Endpoint>, seq<Endpoint>)
  {
    (e.sources, e.targets)
  }

  /** `filterDuplicitEdges`: the edges whose key has not been seen before,
      in order. */
  function Dedup(es: seq<Edge>, seen: set<(seq<Endpoint>, seq<Endpoint>)>): seq<Edge>
  {
    if es == [] then []
    else if Key(es[0]) in seen then Dedup(es[1..], seen)
    else [es[0]] + Dedup(es[1..], seen + {Key(es[0])})
  }

  /** The kept edges are edges of the list, and no two of them are
      duplicates of each other or of an edge seen before. */
  lemma {:induction false} DedupUnique(es: seq<Edge>, seen: set<(seq<Endpoint>, seq<Endpoint>)>)
    ensures forall k | 0 <= k < |Dedup(es, seen)| :: Dedup(es, seen)[k] in es && Key(Dedup(es, seen)[k]) !in seen
    ensures forall i, j | 0 <= i < j < |Dedup(es, seen)| :: Key(Dedup(es, seen)[i]) != Key(Dedup(es, seen)[j])
  {
    if es != [] {
      if Key(es[0]) in seen {
        DedupUnique(es[1..], seen);
      } else {
        DedupUnique(es[1..], seen + {Key(es[0])});
        var r := Dedup(es, seen);
        assert r == [es[0]] + Dedup(es[1..], seen + {Key(es[0])});
        forall k | 0 <= k < |r| ensures r[k] in es {
          if k > 0 { assert r[k] == Dedup(es[1..], seen + {Key(es[0])})[k - 1]; }
        }
      }
    }
  }

  /** An edge of the list is kept exactly when no edge before it, and no
      edge seen before the list, is a duplicate of it (edges are told apart
      by their ids). */
  lemma {:induction false} DedupKeepsFirst(es: seq<Edge>, seen: set<(seq<Endpoint>, seq<Endpoint>)>, i: nat)
    requires i < |es| && Distinct(ObjectIdChecks.EdgeIds(es))
    ensures es[i] in Dedup(es, seen) <==> Key(es[i]) !in seen && forall j | 0 <= j < i :: Key(es[j]) != Key(es[i])
  {
    var ids := ObjectIdChecks.EdgeIds(es);
    var tail := es[1..];
    assert Distinct(ObjectIdChecks.EdgeIds(tail)) by {
      forall a, b | 0 <= a < b < |tail| ensures ObjectIdChecks.EdgeIds(tail)[a] != ObjectIdChecks.EdgeIds(tail)[b] {
        assert ids[a + 1] != ids[b + 1];
      }
    }
    if i == 0 {
      if Key(es[0]) !in seen {
        assert Dedup(es, seen)[0] == es[0];
      } else {
        DedupUnique(tail, seen);
      }
    } else {
      var s' := if Key(es[0]) in seen then seen else seen + {Key(es[0])};
      DedupKeepsFirst(tail, s', i - 1);
      assert tail[i - 1] == es[i];
      assert es[i] != es[0] by { assert ids[0] != ids[i]; }
      assert (forall j | 0 <= j < i :: Key(es[j]) != Key(es[i])) <==>
             Key(es[0]) != Key(es[i]) && forall j | 0 <= j < i - 1 :: Key(tail[j]) != Key(es[i]) by {
        forall j | 0 <= j < i - 1 ensures tail[j] == es[j + 1] { }
        if forall j | 0 <= j < i - 1 :: Key(tail[j]) != Key(es[i]) {
          forall j | 1 <= j < i ensures Key(es[j]) != Key(es[i]) { assert es[j] == tail[j - 1]; }
        }
      }
    }
  }

  /** Every key of the list is the key of a kept edge or was seen before. */
  lemma {:induction false} DedupCovers(es: seq<Edge>, seen: set<(seq<Endpoint>, seq<Endpoint>)>, i: nat)
    requires i < |es|
    ensures Key(es[i]) in seen || exists k | 0 <= k < |Dedup(es, seen)| :: Key(Dedup(es, seen)[k]) == Key(es[i])
  {
    var tail := es[1..];
    if i == 0 {
      if Key(es[0]) !in seen {
        assert Dedup(es, seen)[0] == es[0];
      }
    } else {
      var s' := if Key(es[0]) in seen then seen else seen + {Key(es[0])};
      assert tail[i - 1] == es[i];
      DedupCovers(tail, s', i - 1);
      if Key(es[0]) in seen {
        assert Dedup(es, seen) == Dedup(tail, seen);
      } else {
        if Key(es[i]) in s' && Key(es[i]) !in seen {
          assert Dedup(es, seen)[0] == es[0];
        } else if Key(es[i]) !in s' {
          var k :| 0 <= k < |Dedup(tail, s')| && Key(Dedup(tail, s')[k]) == Key(es[i]);
          assert Dedup(es, seen)[k + 1] == Dedup(tail, s')[k];
        }
      }
    }
  }

  /** Keeping a sub-list keeps edge ids apart. */
  lemma {:induction false} DedupDistinct(es: seq<Edge>, seen: set<(seq<Endpoint>, seq<Endpoint>)>)
    requires Distinct(ObjectIdChecks.EdgeIds(es))
    ensures Distinct(ObjectIdChecks.EdgeIds(Dedup(es, seen)))
    ensures forall k | 0 <= k < |Dedup(es, seen)| :: exists j | 0 <= j < |es| :: Dedup(es, seen)[k].id == es[j].id
  {
    if es != [] {
      var tail := es[1..];
      var ids := ObjectIdChecks.EdgeIds(es);
      assert Distinct(ObjectIdChecks.EdgeIds(tail)) by {
        forall a, b | 0 <= a < b < |tail| ensures ObjectIdChecks.EdgeIds(tail)[a] != ObjectIdChecks.EdgeIds(tail)[b] {
          assert ids[a + 1] != ids[b + 1];
        }
      }
      var s' := if Key(es[0]) in seen then seen else seen + {Key(es[0])};
      DedupDistinct(tail, s');
      var d := Dedup(tail, s');
      forall k | 0 <= k < |d| ensures exists j | 0 <= j < |es| :: d[k].id == es[j].id {
        var j :| 0 <= j < |tail| && d[k].id == tail[j].id;
        assert tail[j] == es[j + 1];
      }
      if Key(es[0]) !in seen {
        var r := Dedup(es, seen);
        assert r == [es[0]] + d;
        forall a, b | 0 <= a < b < |r| ensures ObjectIdChecks.EdgeIds(r)[a] != ObjectIdChecks.EdgeIds(r)[b] {
          if a == 0 {
            var j :| 0 <= j < |tail| && d[b - 1].id == tail[j].id;
            assert ids[0] != ids[j + 1];
          } else {
            assert ObjectIdChecks.EdgeIds(d)[a - 1] != ObjectIdChecks.EdgeIds(d)[b - 1];
          }
        }
        forall k | 0 <= k < |r| ensures exists j | 0 <= j < |es| :: r[k].id == es[j].id {
          if k == 0 { assert r[0].id == es[0].id; } else { assert r[k] == d[k - 1]; }
        }
      }
    }
  }

  // ---------------------------------------------------------------------
  // Ports created for cells without port directions

  /** `getEdgePointsAndDirection`: an edge with no source yet takes the new
      endpoint as its source and the port is an output; otherwise the
      endpoint joins the targets and the port is an input. */
  function EdgePointsAndDirection(e: Edge): (r: (Role, string))
    ensures e.sources == [] <==> r == (SourceRole, "output")
    ensures e.sources != [] <==> r == (TargetRole, "input")
  {
    if |e.sources| == 0 && |e.targets| == 0 then (SourceRole, "output")
    else if |e.sources| == 0 then (SourceRole, "output")
    else (TargetRole, "input")
  }

  /** The list chosen and the direction given agree with how a cell port of
      that direction joins an edge: an output drives it, an input is
      driven. */
  lemma EdgePointsAgreeWithCellRole(e: Edge)
    ensures EndpointRole(true, EdgePointsAndDirection(e).1) == Ok(EdgePointsAndDirection(e).0)
  {
  }
}
