/** The entry points of src/yosys.js: the whole graph built from a Yosys
    netlist under an artificial root, and one existing node rebuilt in
    place with the builders of an earlier run. */
module Yosys {
  import opened Outcomes
  import opened Graph
  import opened Netlist
  import opened ObjectIdChecks
  import opened YosysUtils
  import opened PortSuffixes
  import opened LNodeValues
  import opened EdgeTranslation
  import opened LNodeBuilding
  import PortHierarchy
  import HierPortEdges
  import ConcatSplit

  /** `fromYosys`: an empty "root" node from a fresh counter (id 0, level 0),
      then the top module built one level down with the same counter and
      dictionaries, given its port hierarchy, its port owners and its
      hierarchical port edges, and hung under the root as its only child.
      The root's `maxId` is the last id drawn. `fuel` bounds the depth of
      module instantiation. */
  method FromYosys(design: Design, limit: Option<int>, rule: SuffixRule, fuel: nat)
    returns (r: Result<(Node, LNodeBuilder)>)
    ensures GetTopModule(design).Err? ==> r.Err?
    ensures r.Ok? ==>
              var (root, b) := r.value;
              && root.id == 0 && root.name == "root" && root.cls == "" && root.ports == []
              && root.childrenAt.Shown? && |root.children| == 1
              && root.edgesAt.Shown? && root.edges == []
              && root.children[0].id == 1 && root.children[0].name == GetTopModule(design).value.0
              && CheckMaxId(root) && root.maxId == Some(b.shared.counter.id - 1)
              && exists built: Node, c: nat, p: map<nat, HierPortEdges.Owner> ::
                   BlockNormalized(built, root.children[0], rule, p, c, b.shared.counter.id)
    ensures r.Ok? ==>
              var b := r.value.1;
              && b.name == "root" && b.source.None? && b.level == 0 && b.rule == rule
              && b.shared.Registry() && 0 in b.shared.builders && b.shared.builders[0] == b
              && 1 in b.shared.builders && b.shared.builders[1].level == 1
              && b.shared.builders[1].source == Some(GetTopModule(design).value.1)
  {
    var rootBuilder, root := StartRoot(limit, rule, fuel);
    var shared := rootBuilder.shared;
    var top :- GetTopModule(design);
    var main :- BuildTop(shared, top.0, top.1, design.modules, rootBuilder.level + 1, limit, rule, fuel);
    if root.childrenAt.Absent? {
      root := root.(edges := [], edgesAt := Shown, children := [], childrenAt := Shown);
    }
    root := root.(children := root.children + [main]);
    // The top node's builder, registered by its `build`, shares the counter.
    root := root.(maxId := Some(shared.counter.id - 1));
    RootChecked(root, main);
    r := Ok((root, rootBuilder));
  }

  /** The root passes `checkMaxId` when its only child, the top node, does
      and the root's `maxId` covers the child's. */
  lemma RootChecked(root: Node, main: Node)
    requires root.maxId.Some? && root.id <= root.maxId.value && root.ports == []
    requires root.edgesAt.Shown? && root.edges == [] && root.childrenAt.Shown? && root.children == [main]
    requires CheckMaxId(main) && main.maxId.value <= root.maxId.value
    ensures CheckMaxId(root)
  {
  }

  /** The start of `fromYosys`: a fresh counter and dictionaries, and the
      empty "root" node built by its own builder at level 0, which draws id
      0 and registers that builder under it. */
  method StartRoot(limit: Option<int>, rule: SuffixRule, fuel: nat) returns (b: LNodeBuilder, root: Node)
    ensures fresh(b) && fresh(b.shared) && fresh(b.shared.counter)
    ensures b.name == "root" && b.source.None? && b.level == 0 && b.rule == rule && b.modules == []
    ensures b.shared.Registry() && b.shared.counter.id == 1
    ensures 0 in b.shared.builders && b.shared.builders[0] == b
    ensures root.id == 0 && root.name == "root" && root.cls == "" && root.maxId == Some(0)
    ensures root.ports == [] && root.childrenAt.Absent? && root.edgesAt.Absent?
  {
    var shared := new Shared();
    b := new LNodeBuilder("root", None, [], 0, shared, rule);
    // `build` of a new node registers its builder under the node's id, 0
    // here, as the explicit registration before it does.
    var built := b.Build(limit, None, true, false, fuel);
    root := built.value;
  }

  /** The top module's part of `fromYosys`: its node built by a new builder
      at the given level, then, since the top node is never anyone's child,
      its ports grouped into a hierarchy by name, every port recorded with
      its owner and its hierarchical port edges aggregated. */
  method BuildTop(shared: Shared, name: string, m: Module, modules: Entries<Module>, level: nat,
                  limit: Option<int>, rule: SuffixRule, fuel: nat) returns (r: Result<Node>)
    requires shared.Registry()
    modifies shared, shared.counter
    ensures shared.Registry() && shared.counter.id >= old(shared.counter.id)
    ensures BuildersKept(old(shared.builders), shared.builders)
    ensures old(shared.counter.id) in shared.builders
    ensures shared.builders[old(shared.counter.id)].level == level && shared.builders[old(shared.counter.id)].source == Some(m)
    ensures r.Ok? ==> r.value.id == old(shared.counter.id) && r.value.name == name && r.value.cls == ""
    ensures r.Ok? ==> CheckMaxId(r.value) && r.value.maxId.value < shared.counter.id
    ensures r.Ok? ==> exists built: Node, c: nat, p: map<nat, HierPortEdges.Owner> ::
                        BlockNormalized(built, r.value, rule, p, c, shared.counter.id)
  {
    var builder := new LNodeBuilder(name, Some(m), modules, level, shared, rule);
    var main :- builder.Build(limit, None, true, false, fuel);
    // The top node is never normalized as a child, so the same three
    // steps (hierarchy, owners, aggregation) are run on it here.
    r := builder.NormalizeBlock(main);
  }

  /** `fromYosysForSingleNodeWithExistingRoot`: a node with neither visible
      nor hidden edges (children) gets an empty visible list, and the
      node's own builder then rebuilds it in place without loading its
      ports again, finding ports by their names. */
  method FromYosysForSingleNodeWithExistingRoot(node: Node, builder: LNodeBuilder, limit: Option<int>, fuel: nat)
    returns (r: Result<Node>)
    requires builder.shared.Registry() && Assembling(node, builder.shared.counter.id)
    requires builder.source.Some? ==> !ConcatSplit.IsConcat(node) && !ConcatSplit.IsSlice(node)
    modifies builder, builder.shared, builder.shared.counter
    ensures builder.shared.Registry() && builder.shared.counter.id >= old(builder.shared.counter.id)
    ensures BuildersKept(old(builder.shared.builders), builder.shared.builders)
    ensures r.Ok? ==> CheckMaxId(r.value) && r.value.maxId.value < builder.shared.counter.id
    ensures r.Ok? ==> r.value.id == node.id && r.value.name == node.name && r.value.cls == node.cls
    ensures r.Ok? ==> r.value.ports == node.ports
  {
    var n := node;
    if n.edgesAt.Absent? {
      n := n.(edges := [], edgesAt := Shown);
    }
    if n.childrenAt.Absent? {
      n := n.(children := [], childrenAt := Shown);
    }
    r := builder.Build(limit, Some(n), false, true, fuel);
  }
}
