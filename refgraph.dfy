/**
 * The tree views of a reference graph: the children of a node, the tree of
 * nodes below it, and the nested-object form of that tree that `serialize`
 * hands to the tree printer. The graph is the part of a dependency graph
 * these views read: node data by id and the outgoing edges of each id. The
 * views recurse without a visited set, so they are stated for acyclic graphs,
 * with a ghost rank that decreases along every edge.
 */
module RefGraphs {
  import opened Wrappers

  /** Node data by id (a node may carry none) and outgoing edges by id. */
  datatype RefGraph<T> = RefGraph(nodes: map<string, Option<T>>, outgoing: map<string, seq<string>>)

  datatype Node<T> = Node(id: string, data: Option<T>)

  datatype NodeTree<T> = NodeTree(node: Node<T>, children: map<string, NodeTree<T>>)

  /** The nested objects of `treeify`: each key maps to the object below it. */
  datatype TreeObject = TreeObject(entries: map<string, TreeObject>)

  /** Every edge ends at a node, as the dependency graph guarantees. */
  predicate WellFormed<T>(g: RefGraph<T>)
  {
    forall id, k :: id in g.outgoing && 0 <= k < |g.outgoing[id]| ==> g.outgoing[id][k] in g.nodes
  }

  function RankOf(rank: map<string, nat>, id: string): nat
  {
    if id in rank then rank[id] else 0
  }

  /** `rank` decreases along every edge, so the graph has no cycle. */
  ghost predicate Ranked<T>(g: RefGraph<T>, rank: map<string, nat>)
  {
    forall id, k :: id in g.outgoing && 0 <= k < |g.outgoing[id]| ==> RankOf(rank, g.outgoing[id][k]) < RankOf(rank, id)
  }

  /** The targets of the edges leaving `id`, in edge order. */
  function ChildIds<T>(g: RefGraph<T>, id: string): seq<string>
  {
    if id in g.outgoing then g.outgoing[id] else []
  }

  /** The children of `id`: one node per outgoing edge, with the target's data. */
  function ChildrenOf<T>(g: RefGraph<T>, id: string): (r: seq<Node<T>>)
    requires WellFormed(g)
    ensures |r| == |ChildIds(g, id)|
    ensures forall i :: 0 <= i < |r| ==> r[i].id == ChildIds(g, id)[i] && r[i].data == g.nodes[r[i].id]
  {
    var ids := ChildIds(g, id);
    seq(|ids|, i requires 0 <= i < |ids| => Node(ids[i], g.nodes[ids[i]]))
  }

  /** `nodeChildren`: the loop that builds one child per outgoing edge. */
  method NodeChildren<T>(g: RefGraph<T>, node: Node<T>) returns (children: seq<Node<T>>)
    requires WellFormed(g)
    ensures node.id !in g.outgoing ==> children == []
    ensures |children| == |ChildIds(g, node.id)|
    ensures forall i :: 0 <= i < |children| ==>
      children[i].id == ChildIds(g, node.id)[i] && children[i].data == g.nodes[children[i].id]
  {
    if node.id !in g.outgoing {
      return [];
    }
    var edges := g.outgoing[node.id];
    children := [];
    var i := 0;
    while i < |edges|
      invariant 0 <= i <= |edges|
      invariant |children| == i
      invariant forall k :: 0 <= k < i ==> children[k].id == edges[k] && children[k].data == g.nodes[edges[k]]
    {
      children := children + [Node(edges[i], g.nodes[edges[i]])];
      i := i + 1;
    }
  }

  lemma NodeChildrenIsChildrenOf<T>(g: RefGraph<T>, id: string, children: seq<Node<T>>)
    requires WellFormed(g)
    requires |children| == |ChildIds(g, id)|
    requires forall i :: 0 <= i < |children| ==> children[i].id == ChildIds(g, id)[i] && children[i].data == g.nodes[children[i].id]
    ensures children == ChildrenOf(g, id)
  {
  }

  /** The tree below `node`: each child id maps to that child's own tree. */
  ghost function TreeOf<T>(g: RefGraph<T>, rank: map<string, nat>, node: Node<T>): (t: NodeTree<T>)
    requires WellFormed(g) && Ranked(g, rank)
    decreases RankOf(rank, node.id)
  {
    var ids := ChildIds(g, node.id);
    NodeTree(node, map c | c in ids :: TreeOf(g, rank, Node(c, g.nodes[c])))
  }

  /** `nodeTree`: the node itself, and a recursive call per child filling `children` key by key. */
  method NodeTreeOf<T>(g: RefGraph<T>, ghost rank: map<string, nat>, node: Node<T>) returns (t: NodeTree<T>)
    requires WellFormed(g) && Ranked(g, rank)
    ensures t == TreeOf(g, rank, node)
    decreases RankOf(rank, node.id)
  {
    var children := NodeChildren(g, node);
    ghost var ids := ChildIds(g, node.id);
    var m: map<string, NodeTree<T>> := map[];
    var i := 0;
    while i < |children|
      invariant 0 <= i <= |children|
      invariant m.Keys == set k | 0 <= k < i :: ids[k]
      invariant forall c :: c in m ==> c in g.nodes && m[c] == TreeOf(g, rank, Node(c, g.nodes[c]))
    {
      var child := children[i];
      assert child.id == ids[i] && child == Node(ids[i], g.nodes[ids[i]]);
      var sub := NodeTreeOf(g, rank, child);
      m := m[child.id := sub];
      i := i + 1;
    }
    assert m.Keys == set c | c in ids;
    t := NodeTree(node, m);
  }

  /** What `nodeTree` promises: it keeps the node, and maps exactly the child ids to their trees. */
  lemma TreeOfChildren<T>(g: RefGraph<T>, rank: map<string, nat>, node: Node<T>)
    requires WellFormed(g) && Ranked(g, rank)
    ensures TreeOf(g, rank, node).node == node
    ensures forall c :: c in TreeOf(g, rank, node).children <==> c in ChildIds(g, node.id)
    ensures forall c :: c in TreeOf(g, rank, node).children ==>
      TreeOf(g, rank, node).children[c].node == Node(c, g.nodes[c])
    ensures forall c :: c in TreeOf(g, rank, node).children ==>
      TreeOf(g, rank, node).children[c] == TreeOf(g, rank, Node(c, g.nodes[c]))
    ensures node.id !in g.outgoing ==> TreeOf(g, rank, node).children == map[]
  {
  }

  /** Every node of `nodes` ranks below `bound`. */
  ghost predicate Below<T>(rank: map<string, nat>, nodes: seq<Node<T>>, bound: nat)
  {
    forall i :: 0 <= i < |nodes| ==> RankOf(rank, nodes[i].id) < bound
  }

  /** The object `serialize` stores under one node: `{}` for a leaf, else the serialized children. */
  ghost function SubtreeOf<T>(g: RefGraph<T>, rank: map<string, nat>, node: Node<T>, bound: nat): TreeObject
    requires WellFormed(g) && Ranked(g, rank) && RankOf(rank, node.id) < bound
    decreases bound, 0
  {
    var children := ChildrenOf(g, node.id);
    if |children| > 0 then SerializeOf(g, rank, children, RankOf(rank, node.id)) else TreeObject(map[])
  }

  /** `serialize(graph, ...nodes)`: each node's id, in order, bound to its subtree. */
  ghost function SerializeOf<T>(g: RefGraph<T>, rank: map<string, nat>, nodes: seq<Node<T>>, bound: nat): TreeObject
    requires WellFormed(g) && Ranked(g, rank) && Below(rank, nodes, bound)
    decreases bound, |nodes|
  {
    if |nodes| == 0 then TreeObject(map[])
    else
      var last := nodes[|nodes| - 1];
      var before := SerializeOf(g, rank, nodes[..|nodes| - 1], bound);
      TreeObject(before.entries[last.id := SubtreeOf(g, rank, last, bound)])
  }

  lemma ChildrenBelow<T>(g: RefGraph<T>, rank: map<string, nat>, id: string)
    requires WellFormed(g) && Ranked(g, rank)
    ensures Below(rank, ChildrenOf(g, id), RankOf(rank, id))
  {
  }

  /** `serialize`, with its loop over the given nodes and a recursive call for each node with children. */
  method Serialize<T>(g: RefGraph<T>, ghost rank: map<string, nat>, nodes: seq<Node<T>>, ghost bound: nat)
    returns (tree: TreeObject)
    requires WellFormed(g) && Ranked(g, rank) && Below(rank, nodes, bound)
    ensures tree == SerializeOf(g, rank, nodes, bound)
    decreases bound, |nodes|
  {
    tree := TreeObject(map[]);
    var i := 0;
    while i < |nodes|
      invariant 0 <= i <= |nodes|
      invariant tree == SerializeOf(g, rank, nodes[..i], bound)
    {
      var node := nodes[i];
      var children := NodeChildren(g, node);
      NodeChildrenIsChildrenOf(g, node.id, children);
      var subtree := TreeObject(map[]);
      if |children| > 0 {
        ChildrenBelow(g, rank, node.id);
        subtree := Serialize(g, rank, children, RankOf(rank, node.id));
      }
      assert subtree == SubtreeOf(g, rank, node, bound);
      assert nodes[..i + 1][..i] == nodes[..i];
      tree := TreeObject(tree.entries[node.id := subtree]);
      i := i + 1;
    }
    assert nodes[..|nodes|] == nodes;
  }

  /**
   * What `serialize` promises: exactly the given ids are keys, and each maps to
   * `{}` when its node has no children and to the serialized children otherwise.
   */
  lemma {:induction false} SerializeEntries<T>(g: RefGraph<T>, rank: map<string, nat>, nodes: seq<Node<T>>, bound: nat)
    requires WellFormed(g) && Ranked(g, rank) && Below(rank, nodes, bound)
    ensures forall id :: id in SerializeOf(g, rank, nodes, bound).entries <==> exists i :: 0 <= i < |nodes| && nodes[i].id == id
    ensures forall i :: 0 <= i < |nodes| ==>
      SerializeOf(g, rank, nodes, bound).entries[nodes[i].id] == SubtreeOf(g, rank, nodes[i], bound)
    decreases |nodes|
  {
    if |nodes| > 0 {
      var n := |nodes|;
      var front := nodes[..n - 1];
      var last := nodes[n - 1];
      assert Below(rank, front, bound);
      var before := SerializeOf(g, rank, front, bound).entries;
      var after := SerializeOf(g, rank, nodes, bound).entries;
      assert after == before[last.id := SubtreeOf(g, rank, last, bound)];
      SerializeEntries(g, rank, front, bound);
      SerializeStep(g, rank, nodes, bound, before, after);
    }
  }

  /** One step of `SerializeEntries`: the entries after adding the last node. */
  lemma SerializeStep<T>(g: RefGraph<T>, rank: map<string, nat>, nodes: seq<Node<T>>, bound: nat,
                         before: map<string, TreeObject>, after: map<string, TreeObject>)
    requires WellFormed(g) && Ranked(g, rank) && Below(rank, nodes, bound) && |nodes| > 0
    requires after == before[nodes[|nodes| - 1].id := SubtreeOf(g, rank, nodes[|nodes| - 1], bound)]
    requires forall id :: id in before <==> exists i :: 0 <= i < |nodes| - 1 && nodes[i].id == id
    requires forall i :: 0 <= i < |nodes| - 1 ==> nodes[i].id in before && before[nodes[i].id] == SubtreeOf(g, rank, nodes[i], bound)
    ensures forall id :: id in after <==> exists i :: 0 <= i < |nodes| && nodes[i].id == id
    ensures forall i :: 0 <= i < |nodes| ==> after[nodes[i].id] == SubtreeOf(g, rank, nodes[i], bound)
  {
    var n := |nodes|;
    forall id | id in after
      ensures exists i :: 0 <= i < n && nodes[i].id == id
    {
      if id != nodes[n - 1].id {
        var i :| 0 <= i < n - 1 && nodes[i].id == id;
      }
    }
    forall i | 0 <= i < n
      ensures after[nodes[i].id] == SubtreeOf(g, rank, nodes[i], bound)
    {
      if nodes[i].id == nodes[n - 1].id {
        SameIdSubtree(g, rank, nodes[i], nodes[n - 1], bound);
      }
    }
  }

  /** The subtree under a node depends only on its id. */
  lemma SameIdSubtree<T>(g: RefGraph<T>, rank: map<string, nat>, a: Node<T>, b: Node<T>, bound: nat)
    requires WellFormed(g) && Ranked(g, rank) && a.id == b.id && RankOf(rank, a.id) < bound
    ensures SubtreeOf(g, rank, a, bound) == SubtreeOf(g, rank, b, bound)
  {
  }

  /** The shape of a node tree: its ids nested, the node data dropped. */
  ghost function Shape<T>(t: NodeTree<T>): TreeObject
    decreases t
  {
    TreeObject(map c | c in t.children :: Shape(t.children[c]))
  }

  /** `serialize` of one node is the shape of its `nodeTree`, keyed by its id. */
  lemma {:induction false} SerializeIsTreeShape<T>(g: RefGraph<T>, rank: map<string, nat>, node: Node<T>, bound: nat)
    requires WellFormed(g) && Ranked(g, rank) && RankOf(rank, node.id) < bound
    ensures SubtreeOf(g, rank, node, bound) == Shape(TreeOf(g, rank, node))
    decreases RankOf(rank, node.id)
  {
    var children := ChildrenOf(g, node.id);
    var ids := ChildIds(g, node.id);
    var t := TreeOf(g, rank, node);
    var r := RankOf(rank, node.id);
    ChildrenBelow(g, rank, node.id);
    if |children| > 0 {
      var s := SerializeOf(g, rank, children, r);
      SerializeEntries(g, rank, children, r);
      forall c | c in t.children ensures c in s.entries && s.entries[c] == Shape(t.children[c]) {
        var i :| 0 <= i < |ids| && ids[i] == c;
        assert children[i].id == c;
        assert children[i] == Node(c, g.nodes[c]);
        SerializeIsTreeShape(g, rank, children[i], r);
        SubtreeBound(g, rank, children[i], r, bound);
      }
      forall c | c in s.entries ensures c in t.children {
        var i :| 0 <= i < |children| && children[i].id == c;
        assert ids[i] == c;
      }
    } else {
      assert t.children == map[];
    }
  }

  /** The subtree under a node does not depend on the bound it was computed under. */
  lemma {:induction false} SubtreeBound<T>(g: RefGraph<T>, rank: map<string, nat>, node: Node<T>, b1: nat, b2: nat)
    requires WellFormed(g) && Ranked(g, rank) && RankOf(rank, node.id) < b1 && RankOf(rank, node.id) < b2
    ensures SubtreeOf(g, rank, node, b1) == SubtreeOf(g, rank, node, b2)
  {
  }
}
