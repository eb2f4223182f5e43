# Oriented-graph plot: interaction state and style rules in Dafny

This project models the core of an interactive plot of a directed, weighted
network (the `src/index.js` visualization). The plot keeps an interaction
state: a *selection* of node positions and at most one *highlighted* node.
Three mouse handlers change that state: a click, the start of a brush
gesture, and a brush drag. On every frame the plot resolves each link's and
each node's alpha, colour and stroke from that state and from a directed
*neighbour index*. It also pads the data domains of its axes and places a
tooltip with the highlighted node's label.

The model is functional. Nodes, links, selection, highlight and the
neighbour index are immutable values. The handlers and style rules are pure
functions over `int` and `real`.

Modules, one per component:

- `Wrappers`: `Option`.
- `Graph`: the node and link records, colours and style defaults.
- `Lists`: lodash's `_.indexOf` and `_.remove` on sequences.
- `Adjacency`: `linkedByIndex` and `neighboring`.
- `Scales`: the padded domains of `makeScales`.
- `Tooltip`: `getLabelForDataPoint` and `buildTooltip`.
- `Render`: the style rules of `draw`.
- `Interaction`: the state, the handlers, and the redraw's tooltip rebuild.
- `Format`: `formatData`.

Three behaviours of the code are easy to misread:

- **Link alpha precedence.** The highlight branch runs after the selection
  branch and overwrites it (src/index.js:216-229, 263-280). So while a node
  is highlighted, the selection has no effect on links or nodes.
  `Render.HighlightOverridesSelection` proves this.
- **Size padding.** `padding` is computed from the largest node size
  (src/index.js:349-357) and never read. `Scales.DomainsIgnoreSizes` proves
  that node sizes do not affect the domains.
- **Density floor.** The default link alpha `max(1 - 0.0005·n, 0.5)`
  (src/index.js:50) reaches its floor of 0.5 from 1000 links on.
  `Render.DensityOpacity` states the exact threshold.

Inputs that stand for code outside this model:

- The hit-test (`utils.nearestPoint`) appears as the `hit: Option<nat>` of
  an event.
- The pixel position of each node under the current zoom appears as
  `Plot.pixels`; a zoom tick (`Zoomed`) carries the new positions.
- The colour list from `utils.getColorFromData` appears as `RawData.colors`.

## Model

| member | source | states |
|---|---|---|
| `Lists.IndexOf` | src/index.js:122 | the index is -1 exactly when the value is absent; otherwise it is the first position holding the value |
| `Lists.RemoveAll` | src/index.js:125 | the remaining members are exactly the old members other than the removed value, and a duplicate-free list stays duplicate-free |
| `Lists.RemoveAllAppended` | src/index.js:121-126 | removing a value that was just appended to a list without it gives back the original list |
| `Adjacency.BuildAdjacency` | src/index.js:188-195 | the loop-built index holds the pair (a, b) exactly when a = b is a node position or some link goes from a to b; it equals the set-of-pairs definition |
| `Adjacency.NeighboringIff` | src/index.js:197-200 | `neighboring(a, b)` holds exactly for self-pairs of node positions and for (source, target) pairs of links |
| `Adjacency.NotSymmetric` | src/index.js:193-195 | the relation is directed: one link 0 -> 1 puts (0, 1) in the index but not (1, 0) |
| `Scales.Min` | src/index.js:341-347 | the minimum is at most every value and is one of them |
| `Scales.Max` | src/index.js:341-347 | the maximum is at least every value and is one of them |
| `Scales.Extent` | src/index.js:341-347 | the extent [lo, hi] contains every value, and both ends are attained |
| `Scales.Widen` | src/index.js:359-365 | the widened domain has the same midpoint, contains the old one, and is 1.05 times as wide |
| `Scales.MakeDomains` | src/index.js:338-365 | both padded domains contain every node's coordinate |
| `Scales.DomainsPadTheExtent` | src/index.js:359-365 | each domain is [min - 0.025r, max + 0.025r] for the node spread r on that axis, of width 1.05r |
| `Scales.SizePadding` | src/index.js:349-357 | the size padding is twice the largest node size when that size is non-zero, and 26 when it is zero or the plot has no nodes; it is never below twice any size unless it is 26 |
| `Scales.DomainsIgnoreSizes` | src/index.js:349-357 | nodes with the same positions give the same domains whatever their sizes, so the size padding has no effect |
| `Scales.TwoNodeExample` | src/index.js:359-365 | nodes at (0, 0) and (10, 10) give [-0.25, 10.25] on both axes |
| `Tooltip.NatToString` | src/index.js:398 | the decimal rendering of an index is non-empty, all digits, with no leading zero |
| `Tooltip.ParseNatToString` | src/index.js:398 | reading the decimal rendering of an index gives the index back |
| `Tooltip.NatToStringInjective` | src/index.js:398 | different indices render differently |
| `Tooltip.Label` | src/index.js:394-399 | a node's label is its own label when it has one, else "id: " followed by the canonical decimal digits (no leading zero) that read back as its index |
| `Tooltip.LabelIdentifiesIndex` | src/index.js:394-399 | two unlabelled nodes get the same label exactly when they have the same index |
| `Tooltip.BuildTooltip` | src/index.js:401-429 | a tooltip is built exactly when the node's pixel position lies within the plot less its margins; it carries the node's label, is 100px wide, and sits at `left = x + margin.left - 50` and `bottom = height - y + radius + 5` |
| `Tooltip.TooltipCentredAboveNode` | src/index.js:406-429 | with zero margins, an in-bounds tooltip is a 100px box starting 50px left of the node, so it is horizontally centred on it, with its lower edge the radius plus 5px above the node |
| `Render.LinkStrokeColor` | src/index.js:46-47 | links are gray exactly when the data colours its points by group, colour or value; otherwise they use the accent colour |
| `Render.DensityOpacity` | src/index.js:49-50 | the default link alpha lies in [0.5, 1]; it is 0.5 exactly from 1000 links on, and 1 - n/2000 below that |
| `Render.DensityOpacityAntitone` | src/index.js:49-50 | more links never raise the default link alpha |
| `Render.MakePalette` | src/index.js:46-53 | the per-plot link colour is gray when points are coloured and the accent `#3c16ce` otherwise; the default link alpha is 1 - n/2000 below 1000 links and 0.5 from there on; the outline width is 1 above 500 nodes and 1.1 otherwise |
| `Render.StrokeWidth` | src/index.js:52-53 | the node outline width is 1 exactly on plots of more than 500 nodes, else 1.1 |
| `Render.LinkAlpha` | src/index.js:212-232 | with a highlight, a link is at 0.9 exactly when it touches the highlighted node, else 0.05; otherwise with a selection, at 0.9 exactly when both ends are selected, else 0.05; otherwise at the density default |
| `Render.NodeAlpha` | src/index.js:263-280 | with a highlight, a node is at 0.9 exactly when it neighbours the highlighted node in either direction, else 0.1; otherwise at 0.9 exactly when nothing is selected or it is selected, else 0.1 |
| `Render.NodeStroke` | src/index.js:281-285 | the highlighted node is outlined black; every other node uses its own stroke colour |
| `Render.StyleLink` | src/index.js:212-236 | a link is painted in the plot's link colour at the alpha of the link rule: by the highlight when there is one, else by the selection, else the density default |
| `Render.StyleNode` | src/index.js:263-292 | a node is filled with the link colour, not its own, at the plot's outline width and its own radius; its alpha is the node rule's (by the highlight's two-direction neighbours when there is one, else by the selection); its outline is black exactly for the highlighted node |
| `Render.Draw` | src/index.js:210-299 | a frame has one style per link and per node; each link's alpha follows the link rule and each node's alpha and outline follow the node rules; links take the link colour; nodes are filled with the link colour, at the plot's stroke width and with their own radius; a tooltip is requested exactly when tooltips are on and a node is highlighted |
| `Render.HighlightOverridesSelection` | src/index.js:216-229 | while a node is highlighted, two different selections give the same frame |
| `Render.FrameIgnoresNodeColor` | src/index.js:287-290 | nodes that differ only in their own fill colour give the same frame |
| `Render.HighlightShowsNeighbours` | src/index.js:274-280 | under the index built from the plot's links, a highlighted node shows exactly itself and the nodes one link away in either direction |
| `Render.ShownLinkHasShownEnds` | src/index.js:212-280 | a link drawn at 0.9 always has both end nodes drawn at 0.9 |
| `Interaction.Click` | src/index.js:87-102 | a prevented click changes nothing; a hit highlights exactly the hit node and keeps the selection; a miss clears highlight, selection and tooltip |
| `Interaction.Toggle` | src/index.js:121-126 | an unselected node is appended; a selected node loses every occurrence while other members stay; the selection stays duplicate-free |
| `Interaction.ToggleTwice` | src/index.js:121-126 | toggling a node twice restores the selected set, and the exact sequence when the node was not selected |
| `Interaction.BrushStart` | src/index.js:114-129 | a brush start always clears highlight and tooltip; a hit toggles that node; a miss keeps the selection |
| `Interaction.Within` | src/index.js:136-142 | the collected indices are exactly those of the nodes strictly inside the rectangle; on index-ordered nodes they are increasing and in range |
| `Interaction.WithinWellIndexed` | src/index.js:136-142 | on index-ordered nodes, a position is collected exactly when its node lies strictly inside the rectangle |
| `Interaction.BrushMove` | src/index.js:130-145 | a rectangle of zero width or height changes nothing; otherwise the selection becomes exactly the nodes strictly inside it, duplicate-free, with highlight and tooltip kept |
| `Interaction.BrushReplacesSelection` | src/index.js:130-145 | a non-degenerate drag replaces the selection rather than merging with it: the old selection has no effect |
| `Interaction.Redraw` | src/index.js:297-299 | a redraw changes neither selection nor highlight; with tooltips on and a node highlighted, the tooltip is the one built for that node at its current pixel position: it exists exactly when that node is on the plot, carries its label, is 100px wide, 50px left of the node and the radius plus 5px above it |
| `Interaction.InitialValid` | src/index.js:104-105 | the empty selection and highlight satisfy the state invariant |
| `Interaction.Step` | src/index.js:87-185 | a prevented click changes nothing; any other click runs the click handler then redraws; a brush start always ends with no highlight and no tooltip and redraws only on a hit; a drag redraws only for a rectangle of non-zero width and height and otherwise changes nothing; a zoom tick redraws at the new pixel positions |
| `Interaction.ZoomOffPlotDropsTooltip` | src/index.js:183-185 | a zoom tick that moves the highlighted node off the plot drops its tooltip and keeps selection and highlight |
| `Interaction.StepPreservesValid` | src/index.js:87-145 | every handled event keeps the selection duplicate-free and in range, the highlight in range, and any tooltip labelled for the highlighted node |
| `Interaction.RunPreservesValid` | src/index.js:87-145 | any sequence of handled events keeps the state invariant |
| `Interaction.ClickIdempotent` | src/index.js:87-102 | clicking the same spot twice leaves the state as one click did |
| `Format.PerNode` | src/index.js:319-320 | with several entries, node i gets entry i; a single entry goes to every node; the attribute is missing exactly when the list is empty or has several entries but none for this node |
| `Format.FormatNode` | src/index.js:315-326 | a node takes its position from array slots 0 and 1 and its index from its position; it has label i exactly when the label list reaches it; with a colour c it is filled c and outlined c darkened by 0.75, else the style colour and stroke; a present non-zero size is kept, else the style size |
| `Format.FormatLink` | src/index.js:328-333 | a link takes source, target and value from array slots 0, 1 and 2 |
| `Format.FormatData` | src/index.js:307-335 | the nodes come out indexed by position with their coordinates, labels, colours, outlines and sizes by the per-node rules; each link takes source, target and value from array slots 0, 1 and 2 |
| `Format.SingleEntryBroadcasts` | src/index.js:319-323 | one colour and one non-zero size are given to every node, with the outline darkened by 0.75 |
| `Format.DefaultsWhenAbsent` | src/index.js:319-323 | without colours or sizes every node takes the style defaults |
| `Format.UnstyledNodesUseDefaultOptions` | src/index.js:12-16 | with no colours or sizes in the data, every node is filled `#68a1e5`, outlined white and of size 6, the plot's default options |

## Left out

- Canvas drawing (src/index.js:205-208, 234-259, 287-294) is left out: these are side-effecting context calls. The link line width `sqrt(value)` and the arrowhead geometry (`atan2`, `cos`, `sin`) are left out with them.
- The d3 zoom, brush and linear-scale objects (src/index.js:58-85, 111-113, 146-163, 367-377) are left out as foreign library behaviour. Pixel positions are inputs (`Plot.pixels`), so a degenerate domain's mapping is not modelled.
- The key-down and key-up handlers (src/index.js:165-179) only switch the brush layer's pointer events and cursor. The brush-end handler (src/index.js:146-149) only clears the drawn rectangle. Neither touches the selection or the highlight.
- The `hover` notification (src/index.js:95) is left out: it is an outgoing event with no effect on the state.
- Creating and attaching the tooltip element (src/index.js:415-453) is left out, as are its fixed CSS values other than its 100px width. A built tooltip is a value; removal is the `None` that replaces it.
- The module imports, the CSS file read and the base class (src/index.js:1-9) and the option defaults (src/index.js:19-25) are left out as host-framework lifecycle. The style defaults (src/index.js:12-16) are `Graph.DefaultStyles`, and the zero margins (src/index.js:29) are `Tooltip.PlotMargin`.
- Interaction.Step: accepts `BrushStarted` and `Brushed` on every plot, while the source attaches the brush handlers only when `options.brush` is set (src/index.js:109). The event set is therefore a superset of what a plot without the brush option can receive. The `zoom` option only detaches wheel zooming (src/index.js:82-85), so zoom ticks stay possible either way.
- `utils.nearestPoint`, `utils.buildRGBA`, `utils.getColorFromData` and d3's `color.darker` are left out. Colours are plain values (`Hex`, `Named`, `Darker`), a hit-test result is an input, and `buildRGBA`'s pairing of a colour with an alpha appears as the separate `alpha` field of a style.
- JavaScript numbers are modelled as `real` and `nat`. Floating-point rounding, `NaN` and `undefined` arithmetic are not modelled.
- Scales.MakeDomains: requires at least one node, because on an empty node list `d3.extent` yields `undefined` and the domains become `NaN`.
- Render.Draw: links are assumed to join node positions. A link whose `source` or `target` is not one makes `getLine` (src/index.js:387-391) throw inside the link loop, so the frame is aborted, no node is drawn and the tooltip is not rebuilt; the model returns a full frame and `Interaction.Redraw` rebuilds the tooltip regardless.
- Render.NodeAlpha: requires the highlighted position to be a node of the plot, because `nodes[highlighted[0]].i` throws otherwise. The hit-test only returns nodes of the plot.
- Format.FormatNode: models a size as falsy only when it is missing or zero, because `NaN` is not a real. Labels are strings or missing, because a `null` entry inside the label list is not modelled.
