/**
 * The organisation hierarchy of the "About" page and the toggle that expands
 * or collapses one position in it (OrganizationChart.jsx).
 *
 * The forest is a value; `ToggleInTree` is the recursive rewrite the
 * component applies to it, and `ChartState` is the component's state, whose
 * `ToggleNode` replaces the stored forest with the rewritten one.
 */
module OrganizationChart {

  type NodeId = string

  /**
   * One position `{id, title, expanded, children}`. A node without a
   * `children` field is represented with the empty sequence: the toggle
   * returns a deep-equal node for either, and neither is expandable.
   */
  datatype Node = Node(id: NodeId, title: string, expanded: bool, children: seq<Node>)

  /** The ordered roots of the hierarchy. */
  type Forest = seq<Node>

  /* ---------------------------------------------------------------------- */
  /* The toggle                                                              */
  /* ---------------------------------------------------------------------- */

  /**
   * `toggleNodeInTree(nodes)` for the clicked `nodeId`: every root is mapped
   * through `ToggleAt`, in order.
   */
  function ToggleInTree(nodes: Forest, nodeId: NodeId): (r: Forest)
    ensures |r| == |nodes|
    decreases nodes
  {
    if nodes == [] then [] else [ToggleAt(nodes[0], nodeId)] + ToggleInTree(nodes[1..], nodeId)
  }

  /**
   * The callback of the `map`: a matching node is copied with `expanded`
   * negated and its subtree untouched (the search stops there); any other
   * node is copied with its children rewritten.
   */
  function ToggleAt(node: Node, nodeId: NodeId): Node
    decreases node
  {
    if node.id == nodeId then node.(expanded := !node.expanded)
    else node.(children := ToggleInTree(node.children, nodeId))
  }

  /* ---------------------------------------------------------------------- */
  /* Observations of a forest                                                */
  /* ---------------------------------------------------------------------- */

  /** A node with its `expanded` flag erased: what the toggle must never change. */
  datatype Shape = Shape(id: NodeId, title: string, children: seq<Shape>)

  function ShapeOf(nodes: Forest): seq<Shape>
    decreases nodes
  {
    if nodes == [] then [] else [NodeShape(nodes[0])] + ShapeOf(nodes[1..])
  }

  function NodeShape(node: Node): Shape
    decreases node
  {
    Shape(node.id, node.title, ShapeOf(node.children))
  }

  /** The ids of all nodes, in depth-first pre-order. */
  function Ids(nodes: Forest): seq<NodeId>
    decreases nodes
  {
    if nodes == [] then [] else NodeIds(nodes[0]) + Ids(nodes[1..])
  }

  function NodeIds(node: Node): seq<NodeId>
    decreases node
  {
    [node.id] + Ids(node.children)
  }

  /** The `expanded` flags of all nodes, in the same pre-order as `Ids`. */
  function Flags(nodes: Forest): seq<bool>
    decreases nodes
  {
    if nodes == [] then [] else NodeFlags(nodes[0]) + Flags(nodes[1..])
  }

  function NodeFlags(node: Node): seq<bool>
    decreases node
  {
    [node.expanded] + Flags(node.children)
  }

  predicate Distinct<T(==)>(s: seq<T>)
  {
    forall i, j | 0 <= i < j < |s| :: s[i] != s[j]
  }

  /** The data model's invariant: an id names at most one node of the whole forest. */
  predicate UniqueIds(nodes: Forest)
  {
    Distinct(Ids(nodes))
  }

  lemma {:induction false} IdsFlagsAlign(nodes: Forest)
    ensures |Ids(nodes)| == |Flags(nodes)|
    decreases nodes
  {
    if nodes != [] {
      NodeIdsFlagsAlign(nodes[0]);
      IdsFlagsAlign(nodes[1..]);
    }
  }

  lemma {:induction false} NodeIdsFlagsAlign(node: Node)
    ensures |NodeIds(node)| == |NodeFlags(node)|
    decreases node
  {
    IdsFlagsAlign(node.children);
  }

  /* ---------------------------------------------------------------------- */
  /* What the toggle preserves                                               */
  /* ---------------------------------------------------------------------- */

  /**
   * The toggle keeps the number and order of roots and, at every depth, each
   * node's id, title and children; only `expanded` flags can differ.
   */
  lemma {:induction false} ToggleKeepsShape(nodes: Forest, nodeId: NodeId)
    ensures ShapeOf(ToggleInTree(nodes, nodeId)) == ShapeOf(nodes)
    ensures Ids(ToggleInTree(nodes, nodeId)) == Ids(nodes)
    ensures |Flags(ToggleInTree(nodes, nodeId))| == |Flags(nodes)|
    decreases nodes
  {
    if nodes != [] {
      var r := ToggleInTree(nodes, nodeId);
      ToggleAtKeepsShape(nodes[0], nodeId);
      ToggleKeepsShape(nodes[1..], nodeId);
      assert r[0] == ToggleAt(nodes[0], nodeId);
      assert r[1..] == ToggleInTree(nodes[1..], nodeId);
    }
  }

  lemma {:induction false} ToggleAtKeepsShape(node: Node, nodeId: NodeId)
    ensures NodeShape(ToggleAt(node, nodeId)) == NodeShape(node)
    ensures NodeIds(ToggleAt(node, nodeId)) == NodeIds(node)
    ensures |NodeFlags(ToggleAt(node, nodeId))| == |NodeFlags(node)|
    decreases node
  {
    if node.id != nodeId {
      ToggleKeepsShape(node.children, nodeId);
    }
  }

  /** An id that no node carries leaves the forest deep-equal to the input. */
  lemma {:induction false} ToggleAbsentId(nodes: Forest, nodeId: NodeId)
    requires nodeId !in Ids(nodes)
    ensures ToggleInTree(nodes, nodeId) == nodes
    decreases nodes
  {
    if nodes != [] {
      ToggleAtAbsentId(nodes[0], nodeId);
      ToggleAbsentId(nodes[1..], nodeId);
      assert nodes == [nodes[0]] + nodes[1..];
    }
  }

  lemma {:induction false} ToggleAtAbsentId(node: Node, nodeId: NodeId)
    requires nodeId !in NodeIds(node)
    ensures ToggleAt(node, nodeId) == node
    decreases node
  {
    ToggleAbsentId(node.children, nodeId);
  }

  /** A leaf that does not match is returned as it is. */
  lemma LeafUnchanged(node: Node, nodeId: NodeId)
    requires node.children == [] && node.id != nodeId
    ensures ToggleAt(node, nodeId) == node
  {
  }

  /**
   * Toggling the same id twice gives back the original forest, whatever the
   * ids: the set of flipped nodes depends only on ids and shape, which the
   * first toggle keeps.
   */
  lemma {:induction false} ToggleTwice(nodes: Forest, nodeId: NodeId)
    ensures ToggleInTree(ToggleInTree(nodes, nodeId), nodeId) == nodes
    decreases nodes
  {
    if nodes != [] {
      var once := ToggleInTree(nodes, nodeId);
      ToggleAtTwice(nodes[0], nodeId);
      ToggleTwice(nodes[1..], nodeId);
      assert once[0] == ToggleAt(nodes[0], nodeId);
      assert once[1..] == ToggleInTree(nodes[1..], nodeId);
      assert nodes == [nodes[0]] + nodes[1..];
    }
  }

  lemma {:induction false} ToggleAtTwice(node: Node, nodeId: NodeId)
    ensures ToggleAt(ToggleAt(node, nodeId), nodeId) == node
    decreases node
  {
    if node.id != nodeId {
      ToggleTwice(node.children, nodeId);
    }
  }

  /* ---------------------------------------------------------------------- */
  /* Exactly the target flips, when ids are unique                           */
  /* ---------------------------------------------------------------------- */

  /**
   * Reference rewrite: negate `expanded` on every node whose id is `nodeId`,
   * at any depth, including below another match.
   */
  function FlipAll(nodes: Forest, nodeId: NodeId): Forest
    decreases nodes
  {
    if nodes == [] then [] else [FlipAllAt(nodes[0], nodeId)] + FlipAll(nodes[1..], nodeId)
  }

  function FlipAllAt(node: Node, nodeId: NodeId): Node
    decreases node
  {
    node.(expanded := node.expanded != (node.id == nodeId),
          children := FlipAll(node.children, nodeId))
  }

  /** The pre-order flags with every position whose id is `nodeId` negated. */
  function FlipWhere(ids: seq<NodeId>, flags: seq<bool>, nodeId: NodeId): (r: seq<bool>)
    requires |ids| == |flags|
    ensures |r| == |flags|
    ensures forall k :: 0 <= k < |r| ==> r[k] == (flags[k] != (ids[k] == nodeId))
    decreases ids
  {
    if ids == [] then [] else [flags[0] != (ids[0] == nodeId)] + FlipWhere(ids[1..], flags[1..], nodeId)
  }

  lemma FlipWhereAppend(a: seq<NodeId>, b: seq<bool>, c: seq<NodeId>, d: seq<bool>, nodeId: NodeId)
    requires |a| == |b| && |c| == |d|
    ensures FlipWhere(a + c, b + d, nodeId) == FlipWhere(a, b, nodeId) + FlipWhere(c, d, nodeId)
  {
    var lhs := FlipWhere(a + c, b + d, nodeId);
    var rhs := FlipWhere(a, b, nodeId) + FlipWhere(c, d, nodeId);
    forall k | 0 <= k < |lhs|
      ensures lhs[k] == rhs[k]
    {
      if k >= |a| {
        assert (a + c)[k] == c[k - |a|] && (b + d)[k] == d[k - |a|];
      }
    }
  }

  lemma {:induction false} FlipAllAbsentId(nodes: Forest, nodeId: NodeId)
    requires nodeId !in Ids(nodes)
    ensures FlipAll(nodes, nodeId) == nodes
    decreases nodes
  {
    if nodes != [] {
      FlipAllAtAbsentId(nodes[0], nodeId);
      FlipAllAbsentId(nodes[1..], nodeId);
      assert nodes == [nodes[0]] + nodes[1..];
    }
  }

  lemma {:induction false} FlipAllAtAbsentId(node: Node, nodeId: NodeId)
    requires nodeId !in NodeIds(node)
    ensures FlipAllAt(node, nodeId) == node
    decreases node
  {
    FlipAllAbsentId(node.children, nodeId);
  }

  /** The reference rewrite keeps the ids and negates exactly the flags at matching ids. */
  lemma {:induction false} FlipAllFlags(nodes: Forest, nodeId: NodeId)
    ensures Ids(FlipAll(nodes, nodeId)) == Ids(nodes)
    ensures |Ids(nodes)| == |Flags(nodes)|
    ensures Flags(FlipAll(nodes, nodeId)) == FlipWhere(Ids(nodes), Flags(nodes), nodeId)
    decreases nodes
  {
    IdsFlagsAlign(nodes);
    if nodes != [] {
      var r := FlipAll(nodes, nodeId);
      FlipAllAtFlags(nodes[0], nodeId);
      FlipAllFlags(nodes[1..], nodeId);
      assert r[0] == FlipAllAt(nodes[0], nodeId);
      assert r[1..] == FlipAll(nodes[1..], nodeId);
      FlipWhereAppend(NodeIds(nodes[0]), NodeFlags(nodes[0]), Ids(nodes[1..]), Flags(nodes[1..]), nodeId);
    }
  }

  lemma {:induction false} FlipAllAtFlags(node: Node, nodeId: NodeId)
    ensures NodeIds(FlipAllAt(node, nodeId)) == NodeIds(node)
    ensures |NodeIds(node)| == |NodeFlags(node)|
    ensures NodeFlags(FlipAllAt(node, nodeId)) == FlipWhere(NodeIds(node), NodeFlags(node), nodeId)
    decreases node
  {
    FlipAllFlags(node.children, nodeId);
    FlipWhereAppend([node.id], [node.expanded], Ids(node.children), Flags(node.children), nodeId);
  }

  lemma DistinctAppend<T>(a: seq<T>, b: seq<T>)
    requires Distinct(a + b)
    ensures Distinct(a) && Distinct(b)
    ensures forall y :: y in a ==> y !in b
  {
    assert forall i :: 0 <= i < |a| ==> (a + b)[i] == a[i];
    assert forall j :: 0 <= j < |b| ==> (a + b)[|a| + j] == b[j];
  }

  /** With unique ids the toggle is the reference rewrite: no match lies below another. */
  lemma {:induction false} ToggleIsFlipAll(nodes: Forest, nodeId: NodeId)
    requires UniqueIds(nodes)
    ensures ToggleInTree(nodes, nodeId) == FlipAll(nodes, nodeId)
    decreases nodes
  {
    if nodes != [] {
      DistinctAppend(NodeIds(nodes[0]), Ids(nodes[1..]));
      ToggleAtIsFlipAllAt(nodes[0], nodeId);
      ToggleIsFlipAll(nodes[1..], nodeId);
    }
  }

  lemma {:induction false} ToggleAtIsFlipAllAt(node: Node, nodeId: NodeId)
    requires Distinct(NodeIds(node))
    ensures ToggleAt(node, nodeId) == FlipAllAt(node, nodeId)
    decreases node
  {
    DistinctAppend([node.id], Ids(node.children));
    if node.id == nodeId {
      FlipAllAbsentId(node.children, nodeId);
    } else {
      ToggleIsFlipAll(node.children, nodeId);
    }
  }

  /**
   * With ids unique across the forest, toggling negates the `expanded` flag of
   * the node carrying `nodeId` (if any) and of no other node: the pre-order
   * ids are unchanged and exactly the flag at the one matching position
   * differs.
   */
  lemma ToggleFlipsOnlyTarget(nodes: Forest, nodeId: NodeId)
    requires UniqueIds(nodes)
    ensures Ids(ToggleInTree(nodes, nodeId)) == Ids(nodes)
    ensures |Flags(ToggleInTree(nodes, nodeId))| == |Flags(nodes)| == |Ids(nodes)|
    ensures forall k :: 0 <= k < |Ids(nodes)| ==>
              Flags(ToggleInTree(nodes, nodeId))[k] == (Flags(nodes)[k] != (Ids(nodes)[k] == nodeId))
    ensures forall j, k :: 0 <= j < k < |Ids(nodes)| ==>
              !(Ids(nodes)[j] == nodeId && Ids(nodes)[k] == nodeId)
  {
    ToggleIsFlipAll(nodes, nodeId);
    FlipAllFlags(nodes, nodeId);
  }

  /* ---------------------------------------------------------------------- */
  /* Duplicate ids: the search stops at a match                             */
  /* ---------------------------------------------------------------------- */

  /** No node carrying `nodeId` has a descendant that carries it too. */
  predicate NoNestedMatch(nodes: Forest, nodeId: NodeId)
    decreases nodes
  {
    nodes == [] || (NoNestedMatchAt(nodes[0], nodeId) && NoNestedMatch(nodes[1..], nodeId))
  }

  predicate NoNestedMatchAt(node: Node, nodeId: NodeId)
    decreases node
  {
    (node.id == nodeId ==> nodeId !in Ids(node.children)) && NoNestedMatch(node.children, nodeId)
  }

  lemma {:induction false} AbsentNoNestedMatch(nodes: Forest, nodeId: NodeId)
    requires nodeId !in Ids(nodes)
    ensures NoNestedMatch(nodes, nodeId)
    decreases nodes
  {
    if nodes != [] {
      AbsentNoNestedMatch(nodes[0].children, nodeId);
      AbsentNoNestedMatch(nodes[1..], nodeId);
    }
  }

  /** The reference rewrite leaves a forest unchanged only when no node carries the id. */
  lemma FlipAllFixedIsAbsent(nodes: Forest, nodeId: NodeId)
    requires FlipAll(nodes, nodeId) == nodes
    ensures nodeId !in Ids(nodes)
  {
    FlipAllFlags(nodes, nodeId);
  }

  /**
   * For every forest, duplicates included: the toggle flips every node
   * carrying `nodeId` exactly when no such node lies below another one.
   * Otherwise the search stops at the outer match and the nested one keeps
   * its flag.
   */
  lemma {:induction false} ToggleIsFlipAllIff(nodes: Forest, nodeId: NodeId)
    ensures ToggleInTree(nodes, nodeId) == FlipAll(nodes, nodeId) <==> NoNestedMatch(nodes, nodeId)
    decreases nodes
  {
    if nodes != [] {
      ToggleAtIsFlipAllAtIff(nodes[0], nodeId);
      ToggleIsFlipAllIff(nodes[1..], nodeId);
      var t, f := ToggleInTree(nodes, nodeId), FlipAll(nodes, nodeId);
      if t == f {
        assert t[0] == f[0] && t[1..] == f[1..];
      }
    }
  }

  lemma {:induction false} ToggleAtIsFlipAllAtIff(node: Node, nodeId: NodeId)
    ensures ToggleAt(node, nodeId) == FlipAllAt(node, nodeId) <==> NoNestedMatchAt(node, nodeId)
    decreases node
  {
    if node.id == nodeId {
      if nodeId !in Ids(node.children) {
        FlipAllAbsentId(node.children, nodeId);
        AbsentNoNestedMatch(node.children, nodeId);
      }
      if ToggleAt(node, nodeId) == FlipAllAt(node, nodeId) {
        assert FlipAll(node.children, nodeId) == node.children;
        FlipAllFixedIsAbsent(node.children, nodeId);
      }
    } else {
      ToggleIsFlipAllIff(node.children, nodeId);
      if ToggleAt(node, nodeId) == FlipAllAt(node, nodeId) {
        assert ToggleAt(node, nodeId).children == FlipAllAt(node, nodeId).children;
      }
    }
  }

  /* ---------------------------------------------------------------------- */
  /* Worked examples                                                         */
  /* ---------------------------------------------------------------------- */

  /** Toggling the root of a two-node chart expands the root and leaves the child collapsed. */
  lemma ExampleToggleRoot()
    ensures ToggleInTree([Node("1", "CEO", false, [Node("2", "CTO", false, [])])], "1")
         == [Node("1", "CEO", true, [Node("2", "CTO", false, [])])]
  {
  }

  /** An unknown id changes nothing. */
  lemma ExampleUnknownId()
    ensures ToggleInTree([Node("1", "CEO", false, [Node("2", "CTO", false, [])])], "99")
         == [Node("1", "CEO", false, [Node("2", "CTO", false, [])])]
  {
    var chart := [Node("1", "CEO", false, [Node("2", "CTO", false, [])])];
    assert Ids([Node("2", "CTO", false, [])]) == ["2"];
    assert Ids(chart) == ["1", "2"];
    ToggleAbsentId(chart, "99");
  }

  /**
   * In a three-level chart, toggling a second-level node changes only that
   * node: its ancestors and its sibling keep their flags.
   */
  lemma ExampleToggleDeep()
    ensures ToggleInTree(
              [Node("1", "Director", true,
                 [Node("2", "Programs", true,
                    [Node("4", "Health", false, [Node("6", "Field Team", false, [])]),
                     Node("5", "Education", false, [])]),
                  Node("3", "Finance", false, [])])], "4")
         == [Node("1", "Director", true,
               [Node("2", "Programs", true,
                  [Node("4", "Health", true, [Node("6", "Field Team", false, [])]),
                   Node("5", "Education", false, [])]),
                Node("3", "Finance", false, [])])]
  {
    var health := Node("4", "Health", false, [Node("6", "Field Team", false, [])]);
    var education := Node("5", "Education", false, []);
    var programs := Node("2", "Programs", true, [health, education]);
    var finance := Node("3", "Finance", false, []);
    assert ToggleInTree([education], "4") == [education];
    assert ToggleInTree([health, education], "4") == [health.(expanded := true), education];
    assert ToggleInTree([finance], "4") == [finance];
    assert ToggleInTree([programs, finance], "4")
        == [programs.(children := [health.(expanded := true), education]), finance];
  }

  /**
   * With a duplicated id the search stops at the outer match: the nested node
   * carrying the same id is not flipped.
   */
  lemma ExampleDuplicateIdNotSearchedBelowMatch()
    ensures ToggleInTree([Node("7", "Board", false, [Node("7", "Chair", false, [])])], "7")
         == [Node("7", "Board", true, [Node("7", "Chair", false, [])])]
  {
  }

  /** The component's state: the stored forest and the loader's flags. */
  class ChartState {
    var orgData: Forest
    var loading: bool
    var error: string

    constructor ()
      ensures orgData == [] && loading && error == ""
    {
      orgData := [];
      loading := true;
      error := "";
    }

    /** `toggleNode(nodeId)`: the stored forest becomes exactly the rewritten one. */
    method ToggleNode(nodeId: NodeId)
      modifies this
      ensures orgData == ToggleInTree(old(orgData), nodeId)
      ensures ShapeOf(orgData) == ShapeOf(old(orgData))
      ensures UniqueIds(old(orgData)) ==> UniqueIds(orgData)
      ensures loading == old(loading) && error == old(error)
    {
      ToggleKeepsShape(orgData, nodeId);
      orgData := ToggleInTree(orgData, nodeId);
    }
  }
}
