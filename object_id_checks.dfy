/** The two invariants every built graph must satisfy, as the test helpers
    state them: no id occurs twice anywhere in the tree, and each node's
    `maxId` is at least every id it covers. */
module ObjectIdChecks {
  import opened Outcomes
  import opened Graph
  import Text

  /** The ids of a port and of the ports grouped under it, depth first. */
  function PortIds(p: Port): seq<nat>
  {
    [p.id] + PortsIds(p.children)
  }

  function PortsIds(ps: seq<Port>): seq<nat>
  {
    if ps == [] then [] else PortIds(ps[0]) + PortsIds(ps[1..])
  }

  function EdgeIds(es: seq<Edge>): (r: seq<nat>)
    ensures |r| == |es| && forall k | 0 <= k < |es| :: r[k] == es[k].id
  {
    seq(|es|, k requires 0 <= k < |es| => es[k].id)
  }

  /** Every id reachable from a node, in the order the duplicate check visits
      them: the node, its children (visible or hidden), its edges, its ports. */
  function NodeIds(n: Node): seq<nat>
  {
    [n.id] + (if n.childrenAt.Absent? then [] else NodesIds(n.children)) + EdgeIds(EdgesOf(n)) + PortsIds(n.ports)
  }

  function NodesIds(ns: seq<Node>): seq<nat>
  {
    if ns == [] then [] else NodeIds(ns[0]) + NodesIds(ns[1..])
  }

  function Elems(s: seq<nat>): set<nat>
  {
    set x | x in s
  }

  predicate Distinct(s: seq<nat>)
  {
    forall i, j | 0 <= i < j < |s| :: s[i] != s[j]
  }

  /** No id of `s` repeats and none is already in `seen`. */
  predicate FreshIds(s: seq<nat>, seen: set<nat>)
  {
    Distinct(s) && forall k | 0 <= k < |s| :: s[k] !in seen
  }

  predicate AllAtMost(s: seq<nat>, bound: int)
  {
    forall k | 0 <= k < |s| :: s[k] <= bound
  }

  lemma FreshIdsAppend(a: seq<nat>, b: seq<nat>, seen: set<nat>)
    ensures FreshIds(a + b, seen) <==> FreshIds(a, seen) && FreshIds(b, seen + Elems(a))
  {
    var ab := a + b;
    if FreshIds(a, seen) && FreshIds(b, seen + Elems(a)) {
      forall i, j | 0 <= i < j < |ab| ensures ab[i] != ab[j] {
        if j >= |a| && i < |a| {
          assert ab[i] in Elems(a);
          assert ab[j] == b[j - |a|];
        } else if i >= |a| {
          assert ab[i] == b[i - |a|] && ab[j] == b[j - |a|];
        }
      }
      forall k | 0 <= k < |ab| ensures ab[k] !in seen {
        if k >= |a| { assert ab[k] == b[k - |a|]; }
      }
    }
    if FreshIds(ab, seen) {
      assert a == ab[..|a|] && b == ab[|a|..];
      forall k | 0 <= k < |b| ensures b[k] !in seen + Elems(a) {
        assert b[k] == ab[|a| + k];
      }
    }
  }

  lemma ElemsAppend(a: seq<nat>, b: seq<nat>)
    ensures Elems(a + b) == Elems(a) + Elems(b)
  {
    forall x | x in Elems(a) + Elems(b) ensures x in Elems(a + b) {
      if x in a {
        var i :| 0 <= i < |a| && a[i] == x;
        assert (a + b)[i] == x;
      } else {
        var i :| 0 <= i < |b| && b[i] == x;
        assert (a + b)[|a| + i] == x;
      }
    }
  }

  lemma AllAtMostAppend(a: seq<nat>, b: seq<nat>, bound: int)
    ensures AllAtMost(a + b, bound) <==> AllAtMost(a, bound) && AllAtMost(b, bound)
  {
    if AllAtMost(a + b, bound) {
      forall k | 0 <= k < |b| ensures b[k] <= bound { assert b[k] == (a + b)[|a| + k]; }
      forall k | 0 <= k < |a| ensures a[k] <= bound { assert a[k] == (a + b)[k]; }
    }
  }

  lemma {:induction false} NodesIdsAppend(a: seq<Node>, b: seq<Node>)
    ensures NodesIds(a + b) == NodesIds(a) + NodesIds(b)
  {
    if a != [] {
      assert (a + b)[1..] == a[1..] + b;
      NodesIdsAppend(a[1..], b);
    } else {
      assert a + b == b;
    }
  }

  lemma {:induction false} PortsIdsAppend(a: seq<Port>, b: seq<Port>)
    ensures PortsIds(a + b) == PortsIds(a) + PortsIds(b)
  {
    if a != [] {
      assert (a + b)[1..] == a[1..] + b;
      PortsIdsAppend(a[1..], b);
    } else {
      assert a + b == b;
    }
  }

  /** One step of a walk: `done` was fresh and accumulated into `acc`; the
      next piece `x` either keeps it fresh or makes the whole walk fail. */
  lemma FreshStep(done: seq<nat>, x: seq<nat>, rest: seq<nat>, seen: set<nat>, acc: set<nat>)
    requires FreshIds(done, seen) && acc == seen + Elems(done)
    ensures FreshIds(x, acc) ==> FreshIds(done + x, seen) && acc + Elems(x) == seen + Elems(done + x)
    ensures !FreshIds(x, acc) ==> !FreshIds(done + x + rest, seen)
  {
    FreshIdsAppend(done, x, seen);
    FreshIdsAppend(done + x, rest, seen);
    ElemsAppend(done, x);
  }

  /** `detectDuplicitIds` for one port and the ports under it. */
  method DetectDuplicitPortIds(p: Port, seen: set<nat>) returns (r: Result<set<nat>>)
    decreases p, 1
    ensures r.Ok? <==> FreshIds(PortIds(p), seen)
    ensures r.Ok? ==> r.value == seen + Elems(PortIds(p))
  {
    if p.id in seen {
      assert PortIds(p)[0] == p.id;
      return Err("Duplicit id detected: " + Text.NatToDecimal(p.id));
    }
    r := DetectDuplicitPortsIds(p.children, seen + {p.id});
    FreshIdsAppend([p.id], PortsIds(p.children), seen);
    ElemsAppend([p.id], PortsIds(p.children));
  }

  /** The walk over a list of ports, one after the other. */
  method DetectDuplicitPortsIds(ps: seq<Port>, seen: set<nat>) returns (r: Result<set<nat>>)
    decreases ps, 0
    ensures r.Ok? <==> FreshIds(PortsIds(ps), seen)
    ensures r.Ok? ==> r.value == seen + Elems(PortsIds(ps))
  {
    var acc := seen;
    var i := 0;
    while i < |ps|
      invariant 0 <= i <= |ps|
      invariant FreshIds(PortsIds(ps[..i]), seen)
      invariant acc == seen + Elems(PortsIds(ps[..i]))
    {
      var done := PortsIds(ps[..i]);
      assert ps[..i + 1] == ps[..i] + [ps[i]];
      assert ps == ps[..i + 1] + ps[i + 1..];
      PortsIdsAppend(ps[..i], [ps[i]]);
      PortsIdsAppend(ps[..i + 1], ps[i + 1..]);
      assert PortsIds([ps[i]]) == PortIds(ps[i]);
      FreshStep(done, PortIds(ps[i]), PortsIds(ps[i + 1..]), seen, acc);
      var sub := DetectDuplicitPortIds(ps[i], acc);
      if sub.Err? {
        return Err(sub.msg);
      }
      acc := sub.value;
      i := i + 1;
    }
    assert ps[..i] == ps;
    return Ok(acc);
  }

  /** The walk over the edges of a node: edges carry no nested objects. */
  method DetectDuplicitEdgeIds(es: seq<Edge>, seen: set<nat>) returns (r: Result<set<nat>>)
    ensures r.Ok? <==> FreshIds(EdgeIds(es), seen)
    ensures r.Ok? ==> r.value == seen + Elems(EdgeIds(es))
  {
    var acc := seen;
    var i := 0;
    while i < |es|
      invariant 0 <= i <= |es|
      invariant FreshIds(EdgeIds(es[..i]), seen)
      invariant acc == seen + Elems(EdgeIds(es[..i]))
    {
      var done := EdgeIds(es[..i]);
      assert EdgeIds(es[..i + 1]) == done + [es[i].id];
      assert EdgeIds(es) == EdgeIds(es[..i + 1]) + EdgeIds(es[i + 1..]);
      FreshStep(done, [es[i].id], EdgeIds(es[i + 1..]), seen, acc);
      if es[i].id in acc {
        return Err("Duplicit id detected: " + Text.NatToDecimal(es[i].id));
      }
      acc := acc + {es[i].id};
      i := i + 1;
    }
    assert es[..i] == es;
    return Ok(acc);
  }

  /** `detectDuplicitIds`: walks the node, its children (visible or hidden),
      its edges and its ports, adding every id to `seen`; it fails exactly
      when some id repeats or was already seen. */
  method DetectDuplicitIds(n: Node, seen: set<nat>) returns (r: Result<set<nat>>)
    decreases n, 1
    ensures r.Ok? <==> FreshIds(NodeIds(n), seen)
    ensures r.Ok? ==> r.value == seen + Elems(NodeIds(n))
  {
    if n.id in seen {
      assert NodeIds(n)[0] == n.id;
      return Err("Duplicit id detected: " + Text.NatToDecimal(n.id));
    }
    var kidIds := if n.childrenAt.Absent? then [] else NodesIds(n.children);
    var edgeIds := EdgeIds(EdgesOf(n));
    var portIds := PortsIds(n.ports);
    assert NodeIds(n) == [n.id] + kidIds + edgeIds + portIds;
    var acc := seen + {n.id};
    FreshStep([], [n.id], [], seen, seen);
    var sub: Result<set<nat>> := Ok(acc);
    if !n.childrenAt.Absent? {
      sub := DetectDuplicitNodesIds(n.children, acc);
    }
    FreshStep([n.id], kidIds, edgeIds + portIds, seen, acc);
    assert [n.id] + kidIds + (edgeIds + portIds) == NodeIds(n);
    if sub.Err? {
      return sub;
    }
    acc := sub.value;
    sub := DetectDuplicitEdgeIds(EdgesOf(n), acc);
    FreshStep([n.id] + kidIds, edgeIds, portIds, seen, acc);
    if sub.Err? {
      return sub;
    }
    acc := sub.value;
    sub := DetectDuplicitPortsIds(n.ports, acc);
    FreshStep([n.id] + kidIds + edgeIds, portIds, [], seen, acc);
    assert [n.id] + kidIds + edgeIds + portIds + [] == NodeIds(n);
    return sub;
  }

  /** The walk over a list of nodes, one after the other. */
  method DetectDuplicitNodesIds(ns: seq<Node>, seen: set<nat>) returns (r: Result<set<nat>>)
    decreases ns, 0
    ensures r.Ok? <==> FreshIds(NodesIds(ns), seen)
    ensures r.Ok? ==> r.value == seen + Elems(NodesIds(ns))
  {
    var acc := seen;
    var i := 0;
    while i < |ns|
      invariant 0 <= i <= |ns|
      invariant FreshIds(NodesIds(ns[..i]), seen)
      invariant acc == seen + Elems(NodesIds(ns[..i]))
    {
      var done := NodesIds(ns[..i]);
      assert ns[..i + 1] == ns[..i] + [ns[i]];
      assert ns == ns[..i + 1] + ns[i + 1..];
      NodesIdsAppend(ns[..i], [ns[i]]);
      NodesIdsAppend(ns[..i + 1], ns[i + 1..]);
      assert NodesIds([ns[i]]) == NodeIds(ns[i]);
      FreshStep(done, NodeIds(ns[i]), NodesIds(ns[i + 1..]), seen, acc);
      var sub := DetectDuplicitIds(ns[i], acc);
      if sub.Err? {
        return Err(sub.msg);
      }
      acc := sub.value;
      i := i + 1;
    }
    assert ns[..i] == ns;
    return Ok(acc);
  }

  /** `checkMaxIdPorts`: `maxId` is at least the port's id and, recursively,
      the ids of the ports under it. */
  predicate CheckMaxIdPorts(maxId: int, p: Port)
  {
    p.id <= maxId && forall k | 0 <= k < |p.children| :: CheckMaxIdPorts(maxId, p.children[k])
  }

  /** `checkMaxId` succeeds: `maxId` is a number, every child passes the check
      and has a `maxId` no larger, and `maxId` is at least the node's own id,
      every edge id and every port id. */
  predicate CheckMaxId(n: Node)
  {
    && n.maxId.Some?
    && (n.childrenAt.Absent? ||
        forall k | 0 <= k < |n.children| :: CheckMaxId(n.children[k]) && n.children[k].maxId.value <= n.maxId.value)
    && n.id <= n.maxId.value
    && (forall k | 0 <= k < |EdgesOf(n)| :: EdgesOf(n)[k].id <= n.maxId.value)
    && (forall k | 0 <= k < |n.ports| :: CheckMaxIdPorts(n.maxId.value, n.ports[k]))
  }

  /** The port check holds exactly when the bound covers every id of the port tree. */
  lemma {:induction false} CheckMaxIdPortsExact(maxId: int, p: Port)
    ensures CheckMaxIdPorts(maxId, p) <==> AllAtMost(PortIds(p), maxId)
    decreases p, 1
  {
    PortsCovered(maxId, p.children);
    AllAtMostAppend([p.id], PortsIds(p.children), maxId);
    assert AllAtMost([p.id], maxId) <==> p.id <= maxId by { assert [p.id][0] == p.id; }
  }

  lemma {:induction false} PortsCovered(maxId: int, ps: seq<Port>)
    ensures (forall k | 0 <= k < |ps| :: CheckMaxIdPorts(maxId, ps[k])) <==> AllAtMost(PortsIds(ps), maxId)
    decreases ps, 0
  {
    if ps != [] {
      CheckMaxIdPortsExact(maxId, ps[0]);
      PortsCovered(maxId, ps[1..]);
      AllAtMostAppend(PortIds(ps[0]), PortsIds(ps[1..]), maxId);
      if AllAtMost(PortsIds(ps), maxId) {
        forall k | 0 <= k < |ps| ensures CheckMaxIdPorts(maxId, ps[k]) {
          if k > 0 { assert ps[k] == ps[1..][k - 1]; }
        }
      }
    }
  }

  /** A node that passes `checkMaxId` has a `maxId` at least every id in its subtree. */
  lemma {:induction false} CheckMaxIdCovers(n: Node)
    requires CheckMaxId(n)
    ensures AllAtMost(NodeIds(n), n.maxId.value)
  {
    var m := n.maxId.value;
    if !n.childrenAt.Absent? {
      ChildrenCovered(n.children, m);
    }
    PortsCovered(m, n.ports);
    var es := EdgesOf(n);
    assert AllAtMost(EdgeIds(es), m) by {
      forall k | 0 <= k < |EdgeIds(es)| ensures EdgeIds(es)[k] <= m { assert EdgeIds(es)[k] == es[k].id; }
    }
    var kidIds := if n.childrenAt.Absent? then [] else NodesIds(n.children);
    AllAtMostAppend([n.id], kidIds, m);
    AllAtMostAppend([n.id] + kidIds, EdgeIds(es), m);
    AllAtMostAppend([n.id] + kidIds + EdgeIds(es), PortsIds(n.ports), m);
  }

  lemma {:induction false} ChildrenCovered(ns: seq<Node>, m: int)
    requires forall k | 0 <= k < |ns| :: CheckMaxId(ns[k]) && ns[k].maxId.value <= m
    ensures AllAtMost(NodesIds(ns), m)
    decreases ns, 0
  {
    if ns != [] {
      CheckMaxIdCovers(ns[0]);
      ChildrenCovered(ns[1..], m);
      AllAtMostAppend(NodeIds(ns[0]), NodesIds(ns[1..]), m);
    }
  }

  // ---------------------------------------------------------------------
  // The maxId bound while a node is being assembled

  predicate PortsWithin(ps: seq<Port>, bound: int)
  {
    forall k | 0 <= k < |ps| :: CheckMaxIdPorts(bound, ps[k])
  }

  predicate EdgesWithin(es: seq<Edge>, bound: int)
  {
    forall k | 0 <= k < |es| :: es[k].id <= bound
  }

  /** Every child passes `checkMaxId` with a `maxId` no larger than `bound`. */
  predicate ChildrenWithin(cs: seq<Node>, bound: int)
  {
    forall k | 0 <= k < |cs| :: CheckMaxId(cs[k]) && cs[k].maxId.value <= bound
  }

  /** Everything a node owns is covered by `bound`: what `checkMaxId` asks of
      the node once its `maxId` is set to `bound`. */
  predicate ContentWithin(n: Node, bound: int)
  {
    n.id <= bound && PortsWithin(n.ports, bound) && ChildrenWithin(Kids(n), bound) && EdgesWithin(EdgesOf(n), bound)
  }

  /** `checkMaxId` holds exactly when the node's `maxId` is set and covers
      its content. */
  lemma CheckMaxIdIsContentWithin(n: Node)
    ensures CheckMaxId(n) <==> n.maxId.Some? && ContentWithin(n, n.maxId.value)
  {
  }

  lemma {:induction false} CheckMaxIdPortsMonotone(m: int, m': int, p: Port)
    requires m <= m' && CheckMaxIdPorts(m, p)
    ensures CheckMaxIdPorts(m', p)
    decreases p
  {
    forall k | 0 <= k < |p.children| ensures CheckMaxIdPorts(m', p.children[k]) {
      CheckMaxIdPortsMonotone(m, m', p.children[k]);
    }
  }

  /** A larger bound covers whatever a smaller one covers. */
  lemma ContentWithinMonotone(n: Node, m: int, m': int)
    requires m <= m' && ContentWithin(n, m)
    ensures ContentWithin(n, m')
  {
    forall k | 0 <= k < |n.ports| ensures CheckMaxIdPorts(m', n.ports[k]) {
      CheckMaxIdPortsMonotone(m, m', n.ports[k]);
    }
  }

  /** Replacing the children by covered ones keeps the content covered. */
  lemma ContentWithChildren(n: Node, children: seq<Node>, bound: int)
    requires ContentWithin(n, bound) && ChildrenWithin(children, bound)
    ensures ContentWithin(n.(children := children), bound)
  {
    assert Kids(n.(children := children)) == [] || Kids(n.(children := children)) == children;
  }

  lemma PortsWithinMonotone(ps: seq<Port>, m: int, m': int)
    requires m <= m' && PortsWithin(ps, m)
    ensures PortsWithin(ps, m')
  {
    forall k | 0 <= k < |ps| ensures CheckMaxIdPorts(m', ps[k]) {
      CheckMaxIdPortsMonotone(m, m', ps[k]);
    }
  }

  lemma PortsWithinAppend(a: seq<Port>, b: seq<Port>, m: int)
    ensures PortsWithin(a + b, m) <==> PortsWithin(a, m) && PortsWithin(b, m)
  {
    if PortsWithin(a, m) && PortsWithin(b, m) {
      forall k | 0 <= k < |a + b| ensures CheckMaxIdPorts(m, (a + b)[k]) {
        if k >= |a| { assert (a + b)[k] == b[k - |a|]; }
      }
    }
    if PortsWithin(a + b, m) {
      forall k | 0 <= k < |a| ensures CheckMaxIdPorts(m, a[k]) { assert a[k] == (a + b)[k]; }
      forall k | 0 <= k < |b| ensures CheckMaxIdPorts(m, b[k]) { assert b[k] == (a + b)[|a| + k]; }
    }
  }
}
