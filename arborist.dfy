/**
 * The part of an npm Arborist dependency graph the extension reads: nodes
 * with their `package.json` contents and their dependency edges. Node
 * objects are modelled as ids into a table, so that maps keyed by node
 * identity become maps keyed by id.
 */
module Arborist {
  import opened Wrappers

  type NodeId = nat

  /** The dependency types an edge can have. */
  datatype DepType = Prod | Dev | Peer | Optional

  /** What can be wrong with an edge. */
  datatype EdgeError = Detached | Missing | PeerLocal | Invalid

  /** A dependency edge from the node that has the dependency to the node it
      depends on. */
  datatype Edge = Edge(from: NodeId, to: NodeId, depType: DepType, name: string, spec: string, error: Option<EdgeError>)

  datatype Repository = Repository(kind: Option<string>, url: Option<string>)

  /** The contents of a node's `package.json` file. */
  datatype Package = Package(name: Option<string>, description: Option<string>, version: Option<string>,
                             repository: Option<Repository>)

  /** A package folder in the tree. `edgesOut` and `edgesIn` are maps keyed by
      dependency name; they are kept here as sequences in the maps' iteration
      (insertion) order. */
  datatype Node = Node(name: string, parent: Option<string>, children: map<string, NodeId>, package: Package,
                       edgesOut: seq<Edge>, edgesIn: seq<Edge>)

  /** The node objects of one loaded tree, by id. */
  type Graph = map<NodeId, Node>

  /** The targets of the production edges among `edges`, in order: the
      `filter(type === "prod").map(to)` both the tree view and the analyzer
      apply to `edgesOut`. The contract gives which targets appear; the
      order and the repetitions are fixed by `ProdTargetsAppend` and
      `ProdTargetsSingle` below. */
  function ProdTargets(edges: seq<Edge>): (r: seq<NodeId>)
    ensures |r| <= |edges|
    ensures forall i | 0 <= i < |edges| && edges[i].depType == Prod :: edges[i].to in r
    ensures forall x | x in r :: exists i | 0 <= i < |edges| :: edges[i].depType == Prod && edges[i].to == x
    ensures (forall i | 0 <= i < |edges| :: edges[i].depType != Prod) ==> r == []
  {
    if edges == [] then []
    else
      var rest := ProdTargets(edges[1..]);
      assert forall i | 1 <= i < |edges| :: edges[i] == edges[1..][i - 1];
      if edges[0].depType == Prod then [edges[0].to] + rest else rest
  }

  /** Filtering distributes over concatenation, so with the single-edge case
      the function is determined completely, order included. */
  lemma {:induction false} ProdTargetsAppend(a: seq<Edge>, b: seq<Edge>)
    ensures ProdTargets(a + b) == ProdTargets(a) + ProdTargets(b)
    decreases |a|
  {
    if a == [] {
      assert a + b == b;
    } else {
      assert (a + b)[1..] == a[1..] + b;
      ProdTargetsAppend(a[1..], b);
    }
  }

  /** One edge contributes its target exactly when it is a production edge. */
  lemma ProdTargetsSingle(e: Edge)
    ensures ProdTargets([e]) == if e.depType == Prod then [e.to] else []
  {
    assert [e][1..] == [];
  }

  /** When every edge is a production edge, the result lists every target in
      edge order. */
  lemma {:induction false} ProdTargetsAllProd(edges: seq<Edge>)
    requires forall i | 0 <= i < |edges| :: edges[i].depType == Prod
    ensures |ProdTargets(edges)| == |edges|
    ensures forall i | 0 <= i < |edges| :: ProdTargets(edges)[i] == edges[i].to
    decreases |edges|
  {
    if edges != [] {
      ProdTargetsAllProd(edges[1..]);
    }
  }
}
