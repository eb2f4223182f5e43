/**
 The data domains of `makeScales`: each axis's extent over the nodes, widened
 by 2.5% of its range on both sides. The linear mapping onto pixels is d3's
 and is not modelled.
 */
module Scales {
  import opened Graph

  /** A closed data interval [lo, hi]. */
  datatype Domain = Domain(lo: real, hi: real)

  /** The share of an axis's range added on each side. */
  const PadShare: real := 0.025

  /** The smallest value of a non-empty sequence. */
  function Min(s: seq<real>): (m: real)
    requires |s| > 0
    ensures forall k :: 0 <= k < |s| ==> m <= s[k]
    ensures exists k :: 0 <= k < |s| && s[k] == m
  {
    if |s| == 1 then s[0]
    else
      var t := Min(s[1..]);
      assert forall k :: 1 <= k < |s| ==> s[k] == s[1..][k - 1];
      if s[0] <= t then s[0] else t
  }

  /** The largest value of a non-empty sequence. */
  function Max(s: seq<real>): (m: real)
    requires |s| > 0
    ensures forall k :: 0 <= k < |s| ==> s[k] <= m
    ensures exists k :: 0 <= k < |s| && s[k] == m
  {
    if |s| == 1 then s[0]
    else
      var t := Max(s[1..]);
      assert forall k :: 1 <= k < |s| ==> s[k] == s[1..][k - 1];
      if s[0] >= t then s[0] else t
  }

  /** `d3.extent`: [minimum, maximum] of the values. */
  function Extent(s: seq<real>): (d: Domain)
    requires |s| > 0
    ensures d.lo <= d.hi
    ensures forall k :: 0 <= k < |s| ==> d.lo <= s[k] <= d.hi
    ensures (exists k :: 0 <= k < |s| && s[k] == d.lo) && (exists k :: 0 <= k < |s| && s[k] == d.hi)
  {
    Domain(Min(s), Max(s))
  }

  function Xs(nodes: seq<Node>): (xs: seq<real>)
    ensures |xs| == |nodes| && forall k :: 0 <= k < |nodes| ==> xs[k] == nodes[k].x
  {
    seq(|nodes|, k requires 0 <= k < |nodes| => nodes[k].x)
  }

  function Ys(nodes: seq<Node>): (ys: seq<real>)
    ensures |ys| == |nodes| && forall k :: 0 <= k < |nodes| ==> ys[k] == nodes[k].y
  {
    seq(|nodes|, k requires 0 <= k < |nodes| => nodes[k].y)
  }

  function Sizes(nodes: seq<Node>): (ss: seq<real>)
    ensures |ss| == |nodes| && forall k :: 0 <= k < |nodes| ==> ss[k] == nodes[k].s
  {
    seq(|nodes|, k requires 0 <= k < |nodes| => nodes[k].s)
  }

  /** An extent widened by 2.5% of its range on both sides. */
  function Widen(d: Domain): (w: Domain)
    requires d.lo <= d.hi
    ensures w.hi - w.lo == 1.05 * (d.hi - d.lo)
    ensures w.lo + w.hi == d.lo + d.hi
    ensures w.lo <= d.lo && d.hi <= w.hi
  {
    var rng := Abs(d.hi - d.lo);
    Domain(d.lo - rng * PadShare, d.hi + rng * PadShare)
  }

  /**
   The size-based padding `makeScales` computes: twice the largest node size,
   or 26 when that size is zero or there are no nodes (`d3.max` of nothing is
   `undefined`, which is falsy). Nothing reads it, so `MakeDomains` leaves it out.
   */
  function SizePadding(nodes: seq<Node>): (pad: real)
    ensures |nodes| == 0 ==> pad == 26.0
    ensures forall k :: 0 <= k < |nodes| && nodes[k].s != 0.0 && (forall j :: 0 <= j < |nodes| ==> nodes[j].s <= nodes[k].s) ==>
      pad == 2.0 * nodes[k].s
    ensures forall k :: 0 <= k < |nodes| ==> nodes[k].s * 2.0 <= pad || pad == 26.0
    ensures pad == 26.0 || exists k :: 0 <= k < |nodes| && pad == nodes[k].s * 2.0
    ensures (forall k :: 0 <= k < |nodes| ==> nodes[k].s <= 0.0) && (exists k :: 0 <= k < |nodes| && nodes[k].s == 0.0) ==> pad == 26.0
  {
    if |nodes| == 0 then 8.0 * 2.0 + 10.0
    else
      var sizeMax := Max(Sizes(nodes));
      if sizeMax != 0.0 then sizeMax * 2.0 else 8.0 * 2.0 + 10.0
  }

  /** The padded (x, y) domains of `makeScales`. */
  function MakeDomains(nodes: seq<Node>): (r: (Domain, Domain))
    requires |nodes| > 0
    ensures forall k :: 0 <= k < |nodes| ==> r.0.lo <= nodes[k].x <= r.0.hi && r.1.lo <= nodes[k].y <= r.1.hi
  {
    (Widen(Extent(Xs(nodes))), Widen(Extent(Ys(nodes))))
  }

  /** Each padded domain extends 2.5% of the node spread beyond the outermost node on each side. */
  lemma DomainsPadTheExtent(nodes: seq<Node>)
    requires |nodes| > 0
    ensures var (dx, dy) := MakeDomains(nodes);
      var xr := Max(Xs(nodes)) - Min(Xs(nodes));
      var yr := Max(Ys(nodes)) - Min(Ys(nodes));
      && dx == Domain(Min(Xs(nodes)) - PadShare * xr, Max(Xs(nodes)) + PadShare * xr)
      && dy == Domain(Min(Ys(nodes)) - PadShare * yr, Max(Ys(nodes)) + PadShare * yr)
      && dx.hi - dx.lo == 1.05 * xr && dy.hi - dy.lo == 1.05 * yr
  {
  }

  /** The node sizes have no effect on the domains: only positions matter. */
  lemma DomainsIgnoreSizes(nodes: seq<Node>, others: seq<Node>)
    requires |nodes| > 0 && |others| == |nodes|
    requires forall k :: 0 <= k < |nodes| ==> others[k].x == nodes[k].x && others[k].y == nodes[k].y
    ensures MakeDomains(others) == MakeDomains(nodes)
  {
    assert Xs(others) == Xs(nodes);
    assert Ys(others) == Ys(nodes);
  }

  /** Two nodes at (0, 0) and (10, 10) give the domain [-0.25, 10.25] on both axes. */
  lemma TwoNodeExample(a: Node, b: Node)
    requires a.x == 0.0 && a.y == 0.0 && b.x == 10.0 && b.y == 10.0
    ensures MakeDomains([a, b]) == (Domain(-0.25, 10.25), Domain(-0.25, 10.25))
  {
  }
}
