/**
 The normalised data the plot works on: nodes with a data-space position and
 their drawing attributes, and directed weighted links between node positions.
 */
module Graph {
  import opened Wrappers

  /** A colour as the plot names it; how a colour is painted is not modelled. */
  datatype Color =
    | Hex(code: string)             // a CSS hex colour such as "#999"
    | Named(name: string)           // a CSS colour keyword such as "black"
    | Darker(base: Color, k: real)  // d3's `base.darker(k)`

  /**
   A node: data position (x, y), index i, fill colour c, stroke colour k,
   radius s and optional label l.
   */
  datatype Node = Node(x: real, y: real, i: nat, c: Color, k: Color, s: real, l: Option<string>)

  /** A directed link from node position `source` to node position `target`. */
  datatype Link = Link(source: nat, target: nat, value: real)

  /** The style defaults a node attribute falls back to. */
  datatype Styles = Styles(color: Color, stroke: Color, size: real)

  const DefaultStyles: Styles := Styles(Hex("#68a1e5"), Named("white"), 6.0)

  function Abs(x: real): (r: real)
    ensures r >= 0.0 && (r == x || r == -x)
  {
    if x < 0.0 then -x else x
  }

  /** Every node's index is its position in the node list. */
  predicate WellIndexed(nodes: seq<Node>)
  {
    forall k :: 0 <= k < |nodes| ==> nodes[k].i == k
  }
}
