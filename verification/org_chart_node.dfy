/**
 * What the organisation chart draws for a forest (OrgChartNode.jsx, mounted
 * at level 0 for each root by OrganizationChart.jsx): one card per visible
 * node, in depth-first order, each at its nesting level.
 */
module OrgChartNode {
  import opened Wrappers
  import opened OrganizationChart

  /** `hasChildren`: the `children` list is present and non-empty. */
  predicate HasChildren(node: Node)
  {
    |node.children| > 0
  }

  /** `getLevelStyles`: levels 0 to 3 have their own classes; every other level falls back to level 3's. */
  function LevelStyle(level: int): string
  {
    match level
    case 0 => "bg-gradient-to-r from-primary to-secondary text-white shadow-lg"
    case 1 => "bg-gradient-to-r from-secondary to-primary text-white shadow-md"
    case 2 => "bg-white border-2 border-primary text-primary shadow-sm"
    case _ => "bg-gray-50 border border-gray-300 text-gray-700"
  }

  /** The icon of the toggle button. */
  function ChevronIcon(node: Node): string
  {
    if node.expanded then "ChevronUp" else "ChevronDown"
  }

  /**
   * One drawn node: its title box at `level` with that level's style; the
   * toggle button (by its icon) when there is one; whether the vertical stem
   * to the children is drawn; and how many ticks hang from the horizontal
   * connector (0 when that connector is not drawn).
   */
  datatype Card = Card(id: NodeId, title: string, level: nat, style: string,
                       toggle: Option<string>, stem: bool, ticks: nat)

  /** Whether the children block is rendered: `hasChildren && node.expanded`. */
  predicate ShowsChildren(node: Node)
  {
    HasChildren(node) && node.expanded
  }

  function CardOf(node: Node, level: nat): Card
  {
    Card(node.id, node.title, level, LevelStyle(level),
         if HasChildren(node) then Some(ChevronIcon(node)) else None,
         ShowsChildren(node),
         if ShowsChildren(node) && |node.children| > 1 then |node.children| else 0)
  }

  /** `<OrgChartNode node level>`: the node's card, then its children at `level + 1` if shown. */
  function RenderNode(node: Node, level: nat): seq<Card>
    decreases node
  {
    [CardOf(node, level)] + (if ShowsChildren(node) then RenderForest(node.children, level + 1) else [])
  }

  /** `nodes.map(...)` of `<OrgChartNode>` at one level, concatenated in order. */
  function RenderForest(nodes: Forest, level: nat): seq<Card>
    decreases nodes
  {
    if nodes == [] then [] else RenderNode(nodes[0], level) + RenderForest(nodes[1..], level)
  }

  /** The whole chart: every root at level 0. */
  function RenderChart(orgData: Forest): seq<Card>
  {
    RenderForest(orgData, 0)
  }

  /* ---------------------------------------------------------------------- */
  /* Properties of the rendering                                             */
  /* ---------------------------------------------------------------------- */

  /** Levels 0, 1, 2 and 3 each have their own style. */
  lemma LevelStylesDistinct()
    ensures forall i, j :: 0 <= i < j <= 3 ==> LevelStyle(i) != LevelStyle(j)
  {
    var s0, s1, s2, s3 := LevelStyle(0), LevelStyle(1), LevelStyle(2), LevelStyle(3);
    assert s0[|s0| - 1] == 'g' && s1[|s1| - 1] == 'd';
    assert s2[|s2| - 1] == 'm' && s3[|s3| - 1] == '0';
  }

  /** Any level outside 0 to 2 shares level 3's style, and only those levels do. */
  lemma LevelStyleClamps(level: int)
    ensures LevelStyle(level) == LevelStyle(3) <==> !(0 <= level <= 2)
  {
    LevelStylesDistinct();
    if 0 <= level <= 2 {
      assert LevelStyle(level) != LevelStyle(3);
    }
  }

  /** A toggle button is offered exactly for nodes with children; its icon shows the flag. */
  lemma ToggleOfferedIffChildren(node: Node, level: nat)
    ensures CardOf(node, level).toggle.Some? <==> |node.children| > 0
    ensures CardOf(node, level).toggle == Some("ChevronUp") <==> ShowsChildren(node)
    ensures CardOf(node, level).toggle == Some("ChevronDown") <==> HasChildren(node) && !node.expanded
  {
  }

  /** The cards at exactly `level`, in order. */
  function AtLevel(cards: seq<Card>, level: nat): (r: seq<Card>)
    ensures forall c :: c in r ==> c in cards && c.level == level
  {
    if cards == [] then []
    else (if cards[0].level == level then [cards[0]] else []) + AtLevel(cards[1..], level)
  }

  lemma {:induction false} AtLevelAppend(a: seq<Card>, b: seq<Card>, level: nat)
    ensures AtLevel(a + b, level) == AtLevel(a, level) + AtLevel(b, level)
    decreases a
  {
    if a == [] {
      assert a + b == b;
    } else {
      assert (a + b)[0] == a[0];
      assert (a + b)[1..] == a[1..] + b;
      AtLevelAppend(a[1..], b, level);
    }
  }

  lemma {:induction false} AtLevelNone(cards: seq<Card>, level: nat)
    requires forall c :: c in cards ==> c.level != level
    ensures AtLevel(cards, level) == []
    decreases cards
  {
    if cards != [] {
      AtLevelNone(cards[1..], level);
    }
  }

  /** Every card drawn for a forest at `level` is at `level` or deeper and belongs to a node of it. */
  lemma {:induction false} RenderForestBounds(nodes: Forest, level: nat)
    ensures forall c :: c in RenderForest(nodes, level) ==> c.level >= level && c.id in Ids(nodes)
    ensures |RenderForest(nodes, level)| <= |Ids(nodes)|
    decreases nodes
  {
    if nodes != [] {
      RenderNodeBounds(nodes[0], level);
      RenderForestBounds(nodes[1..], level);
    }
  }

  lemma {:induction false} RenderNodeBounds(node: Node, level: nat)
    ensures forall c :: c in RenderNode(node, level) ==> c.level >= level && c.id in NodeIds(node)
    ensures |RenderNode(node, level)| <= |NodeIds(node)|
    decreases node
  {
    RenderForestBounds(node.children, level + 1);
  }

  /** The cards drawn at a forest's own level are exactly its roots' cards, in order. */
  function RootCards(nodes: Forest, level: nat): (r: seq<Card>)
    ensures |r| == |nodes|
    ensures forall i :: 0 <= i < |nodes| ==> r[i] == CardOf(nodes[i], level)
  {
    if nodes == [] then [] else [CardOf(nodes[0], level)] + RootCards(nodes[1..], level)
  }

  /** Of the cards a node draws at `level`, only its own is at `level`. */
  lemma OwnCardOnlyAtItsLevel(node: Node, level: nat)
    ensures AtLevel(RenderNode(node, level), level) == [CardOf(node, level)]
  {
    var below := if ShowsChildren(node) then RenderForest(node.children, level + 1) else [];
    RenderForestBounds(node.children, level + 1);
    AtLevelNone(below, level);
    AtLevelAppend([CardOf(node, level)], below, level);
  }

  lemma {:induction false} TopLevelIsRoots(nodes: Forest, level: nat)
    ensures AtLevel(RenderForest(nodes, level), level) == RootCards(nodes, level)
    decreases nodes
  {
    if nodes != [] {
      OwnCardOnlyAtItsLevel(nodes[0], level);
      AtLevelAppend(RenderNode(nodes[0], level), RenderForest(nodes[1..], level), level);
      TopLevelIsRoots(nodes[1..], level);
    }
  }

  /**
   * Each shown child is drawn at `level + 1`, in the order of `children`;
   * a node whose children are hidden contributes only its own card.
   */
  lemma ChildrenOneLevelDown(node: Node, level: nat)
    ensures ShowsChildren(node) ==> AtLevel(RenderNode(node, level), level + 1) == RootCards(node.children, level + 1)
    ensures !ShowsChildren(node) ==> RenderNode(node, level) == [CardOf(node, level)]
  {
    if ShowsChildren(node) {
      AtLevelAppend([CardOf(node, level)], RenderForest(node.children, level + 1), level + 1);
      TopLevelIsRoots(node.children, level + 1);
    }
  }

  /** The horizontal connector is drawn only for more than one shown child, with one tick per drawn child. */
  lemma ConnectorTicks(node: Node, level: nat)
    ensures CardOf(node, level).ticks > 0 <==> ShowsChildren(node) && |node.children| > 1
    ensures CardOf(node, level).ticks > 0 ==>
              CardOf(node, level).ticks == |AtLevel(RenderNode(node, level), level + 1)|
  {
    ChildrenOneLevelDown(node, level);
  }

  /** Every node is expanded, at every depth. */
  predicate AllExpanded(nodes: Forest)
    decreases nodes
  {
    forall i :: 0 <= i < |nodes| ==> nodes[i].expanded && AllExpanded(nodes[i].children)
  }

  function CardIds(cards: seq<Card>): seq<NodeId>
  {
    if cards == [] then [] else [cards[0].id] + CardIds(cards[1..])
  }

  lemma {:induction false} CardIdsAppend(a: seq<Card>, b: seq<Card>)
    ensures CardIds(a + b) == CardIds(a) + CardIds(b)
    decreases a
  {
    if a == [] {
      assert a + b == b;
    } else {
      assert (a + b)[1..] == a[1..] + b;
      CardIdsAppend(a[1..], b);
    }
  }

  /** A fully expanded chart draws every node, in depth-first pre-order. */
  lemma {:induction false} FullyExpandedShowsAll(nodes: Forest, level: nat)
    requires AllExpanded(nodes)
    ensures CardIds(RenderForest(nodes, level)) == Ids(nodes)
    decreases nodes
  {
    if nodes != [] {
      var node := nodes[0];
      assert node.expanded && AllExpanded(node.children);
      FullyExpandedShowsAll(node.children, level + 1);
      if !HasChildren(node) {
        assert node.children == [];
      }
      CardIdsAppend([CardOf(node, level)], if ShowsChildren(node) then RenderForest(node.children, level + 1) else []);
      assert AllExpanded(nodes[1..]) by {
        forall i | 0 <= i < |nodes[1..]|
          ensures nodes[1..][i].expanded && AllExpanded(nodes[1..][i].children)
        {
          assert nodes[1..][i] == nodes[i + 1];
        }
      }
      FullyExpandedShowsAll(nodes[1..], level);
      CardIdsAppend(RenderNode(node, level), RenderForest(nodes[1..], level));
    }
  }

  /**
   * The whole chart: its level-0 cards are the roots' cards, in order, and a
   * fully expanded chart draws every node in depth-first pre-order.
   */
  lemma ChartView(orgData: Forest)
    ensures AtLevel(RenderChart(orgData), 0) == RootCards(orgData, 0)
    ensures AllExpanded(orgData) ==> CardIds(RenderChart(orgData)) == Ids(orgData)
  {
    TopLevelIsRoots(orgData, 0);
    if AllExpanded(orgData) {
      FullyExpandedShowsAll(orgData, 0);
    }
  }

  /** The `expanded` flag of a leaf is never visible: a leaf draws the same card either way. */
  lemma LeafFlagInvisible(node: Node, level: nat, flag: bool)
    requires node.children == []
    ensures RenderNode(node.(expanded := flag), level) == RenderNode(node, level) == [CardOf(node, level)]
  {
  }
}
