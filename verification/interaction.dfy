/**
 The interaction state of the plot and the event handlers that change it:
 a click (`mouseHandler`), the start of a brush gesture (a toggle of the node
 under the mouse), a brush drag (the selection replaced by the nodes in the
 rectangle) and a zoom tick; each handler that redraws also rebuilds the
 tooltip of the highlighted node. Hit-testing is done outside: its result is
 the `hit` of an event.
 */
module Interaction {
  import opened Wrappers
  import opened Graph
  import opened Lists
  import opened Tooltip

  /** A pixel position on the plot. */
  datatype Point = Point(x: real, y: real)

  /** A brush rectangle `[[x0, y0], [x1, y1]]` in data coordinates. */
  datatype Extent = Extent(x0: real, y0: real, x1: real, y1: real)

  /**
   The plot's mutable state: the selected node positions, the highlighted
   node position, and the tooltip currently built.
   */
  datatype State = State(selected: seq<nat>, highlighted: Option<nat>, tooltip: Option<TooltipEl>)

  const Initial: State := State([], None, None)

  /**
   What the handlers read: the nodes, each node's pixel position under the
   current zoom (which only a zoom tick changes), the plot size and the
   `tooltips` option.
   */
  datatype Plot = Plot(nodes: seq<Node>, pixels: seq<Point>, width: real, height: real, tooltips: bool)

  /**
   A user event, with the result of hit-testing the mouse position where one
   is made; a zoom tick carries every node's pixel position under the new zoom.
   */
  datatype Event =
    | Clicked(defaultPrevented: bool, hit: Option<nat>)
    | BrushStarted(hit: Option<nat>)
    | Brushed(extent: Extent)
    | Zoomed(pixels: seq<Point>)

  predicate WellFormed(p: Plot)
  {
    WellIndexed(p.nodes) && |p.pixels| == |p.nodes|
  }

  /** The hit-test only ever answers with a node of the plot, and a zoom places every node. */
  predicate Admissible(ev: Event, nodeCount: nat)
  {
    match ev
    case Clicked(_, hit) => hit.Some? ==> hit.value < nodeCount
    case BrushStarted(hit) => hit.Some? ==> hit.value < nodeCount
    case Brushed(_) => true
    case Zoomed(pixels) => |pixels| == nodeCount
  }

  /** The plot as an event leaves it: a zoom tick moves the nodes' pixel positions. */
  function Moved(p: Plot, ev: Event): Plot
  {
    if ev.Zoomed? then p.(pixels := ev.pixels) else p
  }

  /**
   The state the handlers keep: a duplicate-free selection of node positions,
   a highlight on a node position, and a tooltip only for the highlighted
   node, labelled with its label, and only when tooltips are on.
   */
  predicate Valid(st: State, p: Plot)
  {
    && NoDup(st.selected)
    && (forall j :: j in st.selected ==> j < |p.nodes|)
    && (st.highlighted.Some? ==> st.highlighted.value < |p.nodes|)
    && (st.tooltip.Some? ==>
          p.tooltips && st.highlighted.Some? && st.tooltip.value.text == Label(p.nodes[st.highlighted.value]))
  }

  /**
   `mouseHandler` before its redraw: nothing on a prevented event; a hit
   highlights exactly the hit node; a miss clears the highlight, the
   selection and the tooltip.
   */
  function Click(st: State, defaultPrevented: bool, hit: Option<nat>): (r: State)
    ensures defaultPrevented ==> r == st
    ensures !defaultPrevented && hit.Some? ==>
      r.highlighted == hit && r.selected == st.selected && r.tooltip == st.tooltip
    ensures !defaultPrevented && hit.None? ==> r == Initial
  {
    if defaultPrevented then st
    else if hit.Some? then st.(highlighted := Some(hit.value))
    else st.(highlighted := None, selected := [], tooltip := None)
  }

  /**
   The selection toggle of a brush start: a node not yet selected is
   appended, a selected one has every occurrence removed.
   */
  function Toggle(selected: seq<nat>, v: nat): (r: seq<nat>)
    ensures v !in selected ==> r == selected + [v]
    ensures v in selected ==> v !in r && forall x :: x != v ==> (x in r <==> x in selected)
    ensures NoDup(selected) ==> NoDup(r)
  {
    if IndexOf(selected, v) == -1 then selected + [v]
    else RemoveAll(selected, v)
  }

  /** Toggling the same node twice restores the selected set, and the very sequence when the node was not selected. */
  lemma ToggleTwice(selected: seq<nat>, v: nat)
    ensures forall x :: x in Toggle(Toggle(selected, v), v) <==> x in selected
    ensures v !in selected ==> Toggle(Toggle(selected, v), v) == selected
  {
    if v !in selected {
      RemoveAllAppended(selected, v);
    }
  }

  /**
   `brushstart`: the highlight and the tooltip are always cleared; a hit
   toggles that node in the selection; a miss leaves the selection alone.
   */
  function BrushStart(st: State, hit: Option<nat>): (r: State)
    ensures r.highlighted.None? && r.tooltip.None?
    ensures hit.None? ==> r.selected == st.selected
    ensures hit.Some? && hit.value !in st.selected ==> r.selected == st.selected + [hit.value]
    ensures hit.Some? && hit.value in st.selected ==>
      forall x :: x in r.selected <==> x in st.selected && x != hit.value
  {
    var cleared := st.(highlighted := None, tooltip := None);
    if hit.Some? then cleared.(selected := Toggle(st.selected, hit.value)) else cleared
  }

  /** A node lies strictly inside the brush rectangle. */
  predicate Inside(n: Node, e: Extent)
  {
    e.x0 < n.x < e.x1 && e.y0 < n.y < e.y1
  }

  /** The indices of the first `n` nodes that lie inside the rectangle, in node order. */
  function Within(nodes: seq<Node>, e: Extent, n: nat): (r: seq<nat>)
    requires n <= |nodes|
    ensures forall j :: j in r <==> exists k :: 0 <= k < n && nodes[k].i == j && Inside(nodes[k], e)
    ensures WellIndexed(nodes) ==>
      (forall a :: 0 <= a < |r| ==> r[a] < n) && (forall a, b :: 0 <= a < b < |r| ==> r[a] < r[b])
  {
    if n == 0 then []
    else
      var prefix := Within(nodes, e, n - 1);
      if Inside(nodes[n - 1], e) then prefix + [nodes[n - 1].i] else prefix
  }

  /** On well-indexed nodes, the collected indices are exactly the positions of the nodes inside. */
  lemma WithinWellIndexed(nodes: seq<Node>, e: Extent)
    ensures WellIndexed(nodes) ==> forall j: nat :: j in Within(nodes, e, |nodes|) <==> j < |nodes| && Inside(nodes[j], e)
  {
  }

  /**
   `brush`: when the rectangle has non-zero width and height the selection is
   replaced by exactly the nodes strictly inside it; otherwise nothing
   changes.
   */
  function BrushMove(st: State, nodes: seq<Node>, e: Extent): (r: State)
    ensures !(e.x0 != e.x1 && e.y0 != e.y1) ==> r == st
    ensures e.x0 != e.x1 && e.y0 != e.y1 ==> r.highlighted == st.highlighted && r.tooltip == st.tooltip
    ensures e.x0 != e.x1 && e.y0 != e.y1 && WellIndexed(nodes) ==>
      && (forall j: nat :: j in r.selected <==> j < |nodes| && Inside(nodes[j], e))
      && NoDup(r.selected)
  {
    if Abs(e.x0 - e.x1) > 0.0 && Abs(e.y0 - e.y1) > 0.0 then
      var inside := Within(nodes, e, |nodes|);
      assert WellIndexed(nodes) ==> forall a, b :: 0 <= a < b < |inside| ==> inside[a] != inside[b];
      WithinWellIndexed(nodes, e);
      st.(selected := inside)
    else st
  }

  /** A non-degenerate drag replaces the selection: what was selected before has no effect. */
  lemma BrushReplacesSelection(st: State, other: State, nodes: seq<Node>, e: Extent)
    requires e.x0 != e.x1 && e.y0 != e.y1
    ensures BrushMove(st, nodes, e).selected == BrushMove(other, nodes, e).selected
  {
  }

  /**
   The state side of `redraw`: with tooltips on and a node highlighted, the
   tooltip is rebuilt for that node at its current pixel position (and is
   gone if that position is off the plot); nothing else changes.
   */
  function Redraw(st: State, p: Plot): (r: State)
    requires |p.pixels| == |p.nodes|
    requires st.highlighted.Some? ==> st.highlighted.value < |p.nodes|
    ensures r.selected == st.selected && r.highlighted == st.highlighted
    ensures !(p.tooltips && st.highlighted.Some?) ==> r.tooltip == st.tooltip
    ensures p.tooltips && st.highlighted.Some? ==>
      var at := p.pixels[st.highlighted.value];
      && (r.tooltip.Some? <==> 0.0 <= at.x <= p.width && 0.0 <= at.y <= p.height)
      && (r.tooltip.Some? ==> r.tooltip.value.text == Label(p.nodes[st.highlighted.value]))
      && (r.tooltip.Some? ==>
            r.tooltip.value.width == BoxWidth && r.tooltip.value.left == at.x - 50.0
            && r.tooltip.value.bottom == p.height - at.y + p.nodes[st.highlighted.value].s + 5.0)
    ensures p.tooltips && st.highlighted.Some? ==>
      var h := st.highlighted.value;
      r.tooltip == BuildTooltip(p.nodes[h], p.pixels[h].x, p.pixels[h].y, p.width, p.height, PlotMargin)
  {
    if p.tooltips && st.highlighted.Some? then
      var h := st.highlighted.value;
      st.(tooltip := BuildTooltip(p.nodes[h], p.pixels[h].x, p.pixels[h].y, p.width, p.height, PlotMargin))
    else st
  }

  /**
   One event handled to completion: the handler, then a redraw where the
   handler redraws (not after a prevented click, a brush start that hits
   nothing, or a drag with a degenerate rectangle).
   */
  function Step(st: State, p: Plot, ev: Event): (r: State)
    requires |p.pixels| == |p.nodes|
    requires st.highlighted.Some? ==> st.highlighted.value < |p.nodes|
    requires Admissible(ev, |p.nodes|)
    ensures ev.Clicked? && ev.defaultPrevented ==> r == st
    ensures ev.Clicked? && !ev.defaultPrevented ==> r == Redraw(Click(st, false, ev.hit), p)
    ensures ev.BrushStarted? ==> r.highlighted.None? && r.tooltip.None?
    ensures ev.BrushStarted? && ev.hit.None? ==> r == BrushStart(st, ev.hit)
    ensures ev.BrushStarted? && ev.hit.Some? ==> r == Redraw(BrushStart(st, ev.hit), p)
    ensures ev.Brushed? && ev.extent.x0 != ev.extent.x1 && ev.extent.y0 != ev.extent.y1 ==>
      r == Redraw(BrushMove(st, p.nodes, ev.extent), p)
    ensures ev.Brushed? && !(ev.extent.x0 != ev.extent.x1 && ev.extent.y0 != ev.extent.y1) ==> r == st
    ensures ev.Zoomed? ==> r == Redraw(st, p.(pixels := ev.pixels))
  {
    match ev
    case Clicked(prevented, hit) =>
      var next := Click(st, prevented, hit);
      if prevented then next else Redraw(next, p)
    case BrushStarted(hit) =>
      var next := BrushStart(st, hit);
      if hit.Some? then Redraw(next, p) else next
    case Brushed(e) =>
      if Abs(e.x0 - e.x1) > 0.0 && Abs(e.y0 - e.y1) > 0.0 then Redraw(BrushMove(st, p.nodes, e), p) else st
    case Zoomed(pixels) => Redraw(st, Moved(p, ev))
  }

  lemma InitialValid(p: Plot)
    ensures Valid(Initial, p)
  {
  }

  /** Every handled event keeps the state valid, on the plot as the event leaves it. */
  lemma StepPreservesValid(st: State, p: Plot, ev: Event)
    requires WellFormed(p) && Valid(st, p) && Admissible(ev, |p.nodes|)
    ensures WellFormed(Moved(p, ev)) && Valid(Step(st, p, ev), Moved(p, ev))
  {
  }

  /**
   A zoom tick that moves the highlighted node off the plot drops its
   tooltip; selection and highlight stay.
   */
  lemma ZoomOffPlotDropsTooltip(st: State, p: Plot, pixels: seq<Point>)
    requires |p.pixels| == |p.nodes| && |pixels| == |p.nodes|
    requires st.highlighted.Some? && st.highlighted.value < |p.nodes| && p.tooltips
    requires var at := pixels[st.highlighted.value]; !(0.0 <= at.x <= p.width && 0.0 <= at.y <= p.height)
    ensures var r := Step(st, p, Zoomed(pixels));
      r.tooltip.None? && r.selected == st.selected && r.highlighted == st.highlighted
  {
  }

  /** The events a plot receives, handled in order. */
  function Run(st: State, p: Plot, events: seq<Event>): State
    requires WellFormed(p) && Valid(st, p)
    requires forall k :: 0 <= k < |events| ==> Admissible(events[k], |p.nodes|)
    decreases |events|
  {
    if |events| == 0 then st
    else
      StepPreservesValid(st, p, events[0]);
      Run(Step(st, p, events[0]), Moved(p, events[0]), events[1..])
  }

  /** From a valid state, any sequence of events leaves the state valid. */
  lemma {:induction false} RunPreservesValid(st: State, p: Plot, events: seq<Event>)
    requires WellFormed(p) && Valid(st, p)
    requires forall k :: 0 <= k < |events| ==> Admissible(events[k], |p.nodes|)
    ensures Valid(Run(st, p, events), p)
    decreases |events|
  {
    if |events| > 0 {
      StepPreservesValid(st, p, events[0]);
      RunPreservesValid(Step(st, p, events[0]), Moved(p, events[0]), events[1..]);
    }
  }

  /** Clicking the same node twice is the same as clicking it once. */
  lemma ClickIdempotent(st: State, p: Plot, hit: Option<nat>)
    requires |p.pixels| == |p.nodes|
    requires st.highlighted.Some? ==> st.highlighted.value < |p.nodes|
    requires hit.Some? ==> hit.value < |p.nodes|
    ensures var once := Step(st, p, Clicked(false, hit));
      Step(once, p, Clicked(false, hit)) == once
  {
  }
}
