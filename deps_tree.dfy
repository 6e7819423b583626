/**
 * The dependency tree view: the provider VS Code asks for the children of a
 * row and for the row's tree item. Only production dependencies are shown
 * as children; a row is a leaf, opening the package's npm page when
 * clicked, when its node has no dependency edges at all.
 */
module DepsTree {
  import Wrappers
  import opened Arborist
  import RepoAnalysis
  import TreeAnalysis

  /** Whether a row can be expanded, and whether it is. */
  datatype TreeItemCollapsibleState = None | Collapsed | Expanded

  /** A VS Code command attached to a row: the command id, its title and its
      arguments. */
  datatype Command = Command(command: string, title: string, arguments: seq<string>)

  /** The tree item of one row. `version` is the version shown, from which
      the tooltip and the description are made. */
  datatype Dependency = Dependency(labelText: string, version: string, collapsibleState: TreeItemCollapsibleState,
                                   command: Wrappers.Option<Command>, tooltip: string, description: string,
                                   contextValue: string)

  /** The command a leaf row runs when clicked. */
  const OpenPackageOnNpm := "extension.openPackageOnNpm"

  /** `new Dependency(label, version, state, command)`; `labelText` is the item's `label`.
      The tooltip joins the label and the version with a dash, the
      description is the version, and every row has the context value
      `dependency`. */
  function NewDependency(labelText: string, version: string, state: TreeItemCollapsibleState,
                         command: Wrappers.Option<Command>): (d: Dependency)
    ensures d.labelText == labelText && d.version == version
    ensures d.collapsibleState == state && d.command == command
    ensures |d.tooltip| == |labelText| + 1 + |version| && d.tooltip[..|labelText|] == labelText
    ensures d.tooltip[|labelText|] == '-' && d.tooltip[|labelText| + 1..] == version
    ensures d.description == version && d.contextValue == "dependency"
  {
    Dependency(labelText, version, state, command, labelText + "-" + version, version, "dependency")
  }

  /** The version a row shows: the declared one, or the empty string. */
  function ShownVersion(pkg: Package): (v: string)
    ensures pkg.version.Some? ==> v == pkg.version.value
    ensures pkg.version.None? ==> v == ""
  {
    pkg.version.GetOr("")
  }

  /** The tree data provider over a loaded tree with the given root node. */
  datatype ArboristProvider = ArboristProvider(root: Node) {

    /** The nodes the production edges of `element`, or of the root when no
        element is given, lead to. The contract gives which nodes appear;
        their order and repetitions are those of the edges, by
        `ProdTargetsAppend` and `ProdTargetsSingle` (see `ChildrenInEdgeOrder`). */
    function GetChildren(element: Wrappers.Option<Node>): (r: seq<NodeId>)
      ensures var node := if element.Some? then element.value else root;
        && |r| <= |node.edgesOut|
        && (forall i | 0 <= i < |node.edgesOut| && node.edgesOut[i].depType == Prod :: node.edgesOut[i].to in r)
        && (forall x | x in r :: exists i | 0 <= i < |node.edgesOut| ::
              node.edgesOut[i].depType == Prod && node.edgesOut[i].to == x)
    {
      var node := element.GetOr(root);
      ProdTargets(node.edgesOut)
    }

    /** The row of a node: a leaf that opens the package on npm when the node
        has no out-edges, a collapsed row otherwise. */
    function GetTreeItem(node: Node): (d: Dependency)
      ensures d.labelText == node.name && d.version == ShownVersion(node.package)
      ensures d.tooltip == node.name + "-" + ShownVersion(node.package)
      ensures d.description == ShownVersion(node.package) && d.contextValue == "dependency"
      ensures d.collapsibleState == TreeItemCollapsibleState.None <==> node.edgesOut == []
      ensures d.collapsibleState != TreeItemCollapsibleState.Expanded
      ensures d.command.Some? <==> node.edgesOut == []
      ensures d.command.Some? ==> d.command.value == Command(OpenPackageOnNpm, "", [node.name])
    {
      var version := ShownVersion(node.package);
      if |node.edgesOut| == 0 then
        NewDependency(node.name, version, TreeItemCollapsibleState.None,
                      Wrappers.Some(Command(OpenPackageOnNpm, "", [node.name])))
      else
        NewDependency(node.name, version, TreeItemCollapsibleState.Collapsed, Wrappers.None)
    }

    /** The row of a node, made a leaf exactly when the node has no children
        to show. */
    function IntendedTreeItem(node: Node): (d: Dependency)
      ensures d.collapsibleState == TreeItemCollapsibleState.None <==> GetChildren(Wrappers.Some(node)) == []
      ensures d.command.Some? <==> GetChildren(Wrappers.Some(node)) == []
      ensures d.command.Some? ==> d.command.value == Command(OpenPackageOnNpm, "", [node.name])
      ensures d.labelText == node.name && d.tooltip == node.name + "-" + ShownVersion(node.package)
    {
      var version := ShownVersion(node.package);
      if GetChildren(Wrappers.Some(node)) == [] then
        NewDependency(node.name, version, TreeItemCollapsibleState.None,
                      Wrappers.Some(Command(OpenPackageOnNpm, "", [node.name])))
      else
        NewDependency(node.name, version, TreeItemCollapsibleState.Collapsed, Wrappers.None)
    }
  }

  /** Asking without an element is asking for the root. */
  lemma RootIsDefault(p: ArboristProvider)
    ensures p.GetChildren(Wrappers.None) == p.GetChildren(Wrappers.Some(p.root))
    ensures p.GetChildren(Wrappers.None) == ProdTargets(p.root.edgesOut)
  {
  }

  /** The tree view and the analyzer expand a node to the same nodes. */
  lemma SameChildrenAsAnalyzer(p: ArboristProvider, t: TreeAnalysis.TreeAnalyzer, node: Node)
    ensures p.GetChildren(Wrappers.Some(node)) == t.Children(node)
  {
  }

  /** Children are listed in edge order: the children of a node whose edges
      are `a + b` are those of `a` followed by those of `b`. */
  lemma ChildrenInEdgeOrder(p: ArboristProvider, node: Node, k: nat)
    requires k <= |node.edgesOut|
    ensures p.GetChildren(Wrappers.Some(node))
         == ProdTargets(node.edgesOut[..k]) + ProdTargets(node.edgesOut[k..])
  {
    assert node.edgesOut == node.edgesOut[..k] + node.edgesOut[k..];
    ProdTargetsAppend(node.edgesOut[..k], node.edgesOut[k..]);
  }

  /** A leaf row has nothing to expand to. */
  lemma LeafHasNoChildren(p: ArboristProvider, node: Node)
    requires p.GetTreeItem(node).collapsibleState == TreeItemCollapsibleState.None
    ensures p.GetChildren(Wrappers.Some(node)) == []
  {
  }

  /** When every edge of a node is a production edge, the row is collapsed
      exactly when it has children, and the two rows agree. */
  lemma AllProdRowsAgree(p: ArboristProvider, node: Node)
    requires forall i | 0 <= i < |node.edgesOut| :: node.edgesOut[i].depType == Prod
    ensures p.GetTreeItem(node) == p.IntendedTreeItem(node)
  {
    ProdTargetsAllProd(node.edgesOut);
  }

  /** A node whose only dependency is a peer dependency gets a collapsed row
      that expands to nothing. */
  lemma CollapsedRowWithoutChildren(p: ArboristProvider)
    ensures var edge := Edge(1, 2, Peer, "react", "^18.0.0", Wrappers.None);
      var node := Node("plugin", Wrappers.None, map[], Package(Wrappers.Some("plugin"), Wrappers.None, Wrappers.Some("1.0.0"), Wrappers.None),
                       [edge], []);
      && p.GetTreeItem(node).collapsibleState == TreeItemCollapsibleState.Collapsed
      && p.GetChildren(Wrappers.Some(node)) == []
      && p.IntendedTreeItem(node).collapsibleState == TreeItemCollapsibleState.None
  {
    var edge := Edge(1, 2, Peer, "react", "^18.0.0", Wrappers.None);
    ProdTargetsSingle(edge);
  }

  /** A package without a version shows the empty string in the tree, while
      its analysis records version 0.0.0. */
  lemma MissingVersionShownEmpty(p: ArboristProvider, node: Node)
    requires node.package.version.None?
    ensures p.GetTreeItem(node).description == ""
    ensures p.GetTreeItem(node).tooltip == node.name + "-"
    ensures RepoAnalysis.DeclaredVersion(node.package) == "0.0.0"
  {
  }
}
