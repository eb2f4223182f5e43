/**
 The per-frame style resolution of `draw`: the colour and alpha of every
 link and the alpha, fill, stroke, line width and radius of every node, given
 the selection, the highlight and the neighbour index. The canvas calls and
 the arrowhead geometry are not modelled.
 */
module Render {
  import opened Wrappers
  import opened Graph
  import opened Lists
  import opened Adjacency

  const Gray: Color := Hex("#999")
  const Accent: Color := Hex("#3c16ce")
  const Black: Color := Named("black")

  /** Alpha of a link or node the current selection or highlight shows. */
  const Shown: real := 0.9
  /** Alpha of a link the current selection or highlight dims. */
  const DimLink: real := 0.05
  /** Alpha of a node the current selection or highlight dims. */
  const DimNode: real := 0.1

  /** The values `render` computes once per plot from the data's size. */
  datatype Palette = Palette(linkColor: Color, linkOpacity: real, strokeWidth: real)

  datatype LinkStyle = LinkStyle(alpha: real, color: Color)

  datatype NodeStyle = NodeStyle(alpha: real, fill: Color, stroke: Color, lineWidth: real, radius: real)

  /** One frame: link styles (drawn first, beneath), node styles, and the node the tooltip is shown for. */
  datatype Frame = Frame(links: seq<LinkStyle>, nodes: seq<NodeStyle>, tooltipFor: Option<nat>)

  /** Links are gray when the data colours its points (by group, colour or value), else the accent colour. */
  function LinkStrokeColor(hasGroup: bool, hasColor: bool, hasValues: bool): (c: Color)
    ensures c == Gray || c == Accent
    ensures c == Gray <==> hasGroup || hasColor || hasValues
  {
    if hasGroup || hasColor || hasValues then Gray else Accent
  }

  function MaxReal(a: real, b: real): real
  {
    if a >= b then a else b
  }

  /** The default link alpha, `max(1 - 0.0005 * linkCount, 0.5)`. */
  function DensityOpacity(linkCount: nat): (a: real)
    ensures 0.5 <= a <= 1.0
    ensures a == 0.5 <==> linkCount >= 1000
    ensures linkCount < 1000 ==> a == 1.0 - (linkCount as real) / 2000.0
  {
    MaxReal(1.0 - 0.0005 * (linkCount as real), 0.5)
  }

  /** More links never make the default link alpha larger. */
  lemma DensityOpacityAntitone(m: nat, n: nat)
    requires m <= n
    ensures DensityOpacity(n) <= DensityOpacity(m)
  {
  }

  /** Node outlines are thinner on plots of more than 500 nodes. */
  function StrokeWidth(nodeCount: nat): (w: real)
    ensures w == 1.0 || w == 1.1
    ensures w == 1.0 <==> nodeCount > 500
  {
    if nodeCount > 500 then 1.0 else 1.1
  }

  /** The per-plot values of `render`, computed once before any frame. */
  function MakePalette(hasGroup: bool, hasColor: bool, hasValues: bool, nodeCount: nat, linkCount: nat): (p: Palette)
    ensures p.linkColor == (if hasGroup || hasColor || hasValues then Gray else Accent)
    ensures 0.5 <= p.linkOpacity <= 1.0 && (p.linkOpacity == 0.5 <==> linkCount >= 1000)
    ensures linkCount < 1000 ==> p.linkOpacity == 1.0 - (linkCount as real) / 2000.0
    ensures p.strokeWidth == (if nodeCount > 500 then 1.0 else 1.1)
  {
    Palette(LinkStrokeColor(hasGroup, hasColor, hasValues), DensityOpacity(linkCount), StrokeWidth(nodeCount))
  }

  /**
   A link's alpha. The source assigns it in three steps: by the selection,
   then by the highlight (overwriting), then the default when both are
   empty.
   */
  function LinkAlpha(selected: seq<nat>, highlighted: Option<nat>, l: Link, density: real): (alpha: real)
    ensures highlighted.Some? ==>
      (alpha == Shown <==> l.source == highlighted.value || l.target == highlighted.value)
      && (alpha == Shown || alpha == DimLink)
    ensures highlighted.None? && |selected| > 0 ==>
      (alpha == Shown <==> l.source in selected && l.target in selected)
      && (alpha == Shown || alpha == DimLink)
    ensures highlighted.None? && |selected| == 0 ==> alpha == density
  {
    var bySelection :=
      if IndexOf(selected, l.source) > -1 && IndexOf(selected, l.target) > -1 then Shown else DimLink;
    var byHighlight :=
      if highlighted.Some? then
        (if l.source == highlighted.value || l.target == highlighted.value then Shown else DimLink)
      else bySelection;
    if |selected| == 0 && highlighted.None? then density else byHighlight
  }

  /**
   A node's alpha: by the selection first, then overwritten by the highlight,
   which shows the highlighted node and its neighbours in either direction.
   */
  function NodeAlpha(selected: seq<nat>, highlighted: Option<nat>, index: set<(nat, nat)>, nodes: seq<Node>, n: Node): (alpha: real)
    requires highlighted.Some? ==> highlighted.value < |nodes|
    ensures alpha == Shown || alpha == DimNode
    ensures highlighted.Some? ==>
      (alpha == Shown <==>
        Neighboring(index, nodes[highlighted.value].i, n.i) || Neighboring(index, n.i, nodes[highlighted.value].i))
    ensures highlighted.None? ==> (alpha == Shown <==> |selected| == 0 || n.i in selected)
  {
    var bySelection := if |selected| > 0 then (if IndexOf(selected, n.i) >= 0 then Shown else DimNode) else Shown;
    if highlighted.Some? then
      var h := nodes[highlighted.value].i;
      if Neighboring(index, h, n.i) || Neighboring(index, n.i, h) then Shown else DimNode
    else bySelection
  }

  /** A node's outline: black for the highlighted node, its own stroke colour otherwise. */
  function NodeStroke(highlighted: Option<nat>, n: Node): (c: Color)
    ensures highlighted == Some(n.i) ==> c == Black
    ensures highlighted != Some(n.i) ==> c == n.k
  {
    if highlighted.Some? && highlighted.value == n.i then Black else n.k
  }

  /** One link's paint: the plot's link colour at the link's alpha. */
  function StyleLink(selected: seq<nat>, highlighted: Option<nat>, l: Link, p: Palette): (s: LinkStyle)
    ensures s.color == p.linkColor
    ensures s.alpha == LinkAlpha(selected, highlighted, l, p.linkOpacity)
    ensures s.alpha == Shown || s.alpha == DimLink || s.alpha == p.linkOpacity
    ensures highlighted.Some? ==> (s.alpha == Shown <==> l.source == highlighted.value || l.target == highlighted.value)
  {
    LinkStyle(LinkAlpha(selected, highlighted, l, p.linkOpacity), p.linkColor)
  }

  /** One node's paint: filled with the link colour, outlined by `NodeStroke`, at the node's alpha and radius. */
  function StyleNode(selected: seq<nat>, highlighted: Option<nat>, index: set<(nat, nat)>, nodes: seq<Node>, n: Node, p: Palette): (s: NodeStyle)
    requires highlighted.Some? ==> highlighted.value < |nodes|
    ensures s.fill == p.linkColor && s.lineWidth == p.strokeWidth && s.radius == n.s
    ensures s.alpha == NodeAlpha(selected, highlighted, index, nodes, n)
    ensures s.alpha == Shown || s.alpha == DimNode
    ensures s.stroke == (if highlighted == Some(n.i) then Black else n.k)
  {
    NodeStyle(NodeAlpha(selected, highlighted, index, nodes, n), p.linkColor, NodeStroke(highlighted, n), p.strokeWidth, n.s)
  }

  /** `draw`: one style per link, then one per node, then the tooltip request. */
  function Draw(nodes: seq<Node>, links: seq<Link>, selected: seq<nat>, highlighted: Option<nat>,
                index: set<(nat, nat)>, p: Palette, tooltips: bool): (f: Frame)
    requires highlighted.Some? ==> highlighted.value < |nodes|
    ensures |f.links| == |links| && |f.nodes| == |nodes|
    ensures forall j :: 0 <= j < |links| ==>
      f.links[j].color == p.linkColor && f.links[j].alpha == LinkAlpha(selected, highlighted, links[j], p.linkOpacity)
    ensures forall k :: 0 <= k < |nodes| ==>
      f.nodes[k].alpha == NodeAlpha(selected, highlighted, index, nodes, nodes[k])
      && f.nodes[k].stroke == NodeStroke(highlighted, nodes[k])
    ensures forall k :: 0 <= k < |nodes| ==>
      f.nodes[k].fill == p.linkColor && f.nodes[k].lineWidth == p.strokeWidth && f.nodes[k].radius == nodes[k].s
    ensures f.tooltipFor.Some? <==> tooltips && highlighted.Some?
    ensures f.tooltipFor.Some? ==> f.tooltipFor == highlighted
  {
    Frame(
      seq(|links|, j requires 0 <= j < |links| => StyleLink(selected, highlighted, links[j], p)),
      seq(|nodes|, k requires 0 <= k < |nodes| => StyleNode(selected, highlighted, index, nodes, nodes[k], p)),
      if tooltips then highlighted else None)
  }

  /** While a node is highlighted the selection has no effect on the frame. */
  lemma HighlightOverridesSelection(nodes: seq<Node>, links: seq<Link>, selected: seq<nat>, other: seq<nat>,
                                    h: nat, index: set<(nat, nat)>, p: Palette, tooltips: bool)
    requires h < |nodes|
    ensures Draw(nodes, links, selected, Some(h), index, p, tooltips) == Draw(nodes, links, other, Some(h), index, p, tooltips)
  {
  }

  /** Nodes that differ only in their own fill colour `c` are drawn identically. */
  lemma FrameIgnoresNodeColor(nodes: seq<Node>, recolored: seq<Node>, links: seq<Link>, selected: seq<nat>,
                              highlighted: Option<nat>, index: set<(nat, nat)>, p: Palette, tooltips: bool)
    requires |recolored| == |nodes|
    requires forall k :: 0 <= k < |nodes| ==> recolored[k] == nodes[k].(c := recolored[k].c)
    requires highlighted.Some? ==> highlighted.value < |nodes|
    ensures Draw(nodes, links, selected, highlighted, index, p, tooltips) == Draw(recolored, links, selected, highlighted, index, p, tooltips)
  {
  }

  /**
   Under the index built from the plot's own links, a highlighted node shows
   exactly itself and the nodes one link away from it in either direction.
   */
  lemma HighlightShowsNeighbours(nodes: seq<Node>, links: seq<Link>, selected: seq<nat>, h: nat, n: Node)
    requires WellIndexed(nodes) && h < |nodes|
    ensures NodeAlpha(selected, Some(h), AdjacencyOf(|nodes|, links), nodes, n) == Shown
      <==> n.i == h || Linked(links, h, n.i) || Linked(links, n.i, h)
  {
  }

  /**
   A link drawn at full alpha because of the selection or the highlight never
   joins a dimmed node: both its end nodes are shown too.
   */
  lemma ShownLinkHasShownEnds(nodes: seq<Node>, links: seq<Link>, selected: seq<nat>, highlighted: Option<nat>,
                              j: nat, density: real)
    requires WellIndexed(nodes)
    requires j < |links| && links[j].source < |nodes| && links[j].target < |nodes|
    requires highlighted.Some? ==> highlighted.value < |nodes|
    requires LinkAlpha(selected, highlighted, links[j], density) == Shown
    ensures var index := AdjacencyOf(|nodes|, links);
      && NodeAlpha(selected, highlighted, index, nodes, nodes[links[j].source]) == Shown
      && NodeAlpha(selected, highlighted, index, nodes, nodes[links[j].target]) == Shown
  {
  }
}
