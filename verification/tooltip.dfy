/**
 The tooltip presenter: the label chosen for a node (`getLabelForDataPoint`)
 and the bounds check and offsets of `buildTooltip`. Pixel positions are
 inputs; creating and attaching the DOM element is not modelled.
 */
module Tooltip {
  import opened Wrappers
  import opened Graph

  /** Plot margins in pixels. */
  datatype Margin = Margin(top: real, right: real, bottom: real, left: real)

  /** The plot sets every margin to zero when it starts. */
  const PlotMargin: Margin := Margin(0.0, 0.0, 0.0, 0.0)

  /** The tooltip box is 100px wide. */
  const BoxWidth: real := 100.0

  /** A built tooltip: its text and its CSS `left` and `bottom` offsets in pixels. */
  datatype TooltipEl = TooltipEl(text: string, left: real, bottom: real, width: real)

  predicate IsDigit(c: char)
  {
    '0' <= c <= '9'
  }

  function DigitChar(d: nat): (c: char)
    requires d < 10
    ensures IsDigit(c)
  {
    (48 + d) as char
  }

  function DigitValue(c: char): (d: nat)
    requires IsDigit(c)
    ensures d < 10
  {
    c as int - 48
  }

  /** JavaScript's decimal rendering of a node position (an array index, so below 10^21, where exponent notation would start). */
  function NatToString(n: nat): (s: string)
    ensures |s| >= 1
    ensures forall k :: 0 <= k < |s| ==> IsDigit(s[k])
    ensures |s| > 1 ==> s[0] != '0'
  {
    if n < 10 then [DigitChar(n)]
    else NatToString(n / 10) + [DigitChar(n % 10)]
  }

  /** Reads a string of decimal digits back as a number. */
  function ParseDecimal(s: string): nat
    requires forall k :: 0 <= k < |s| ==> IsDigit(s[k])
  {
    if |s| == 0 then 0
    else ParseDecimal(s[..|s| - 1]) * 10 + DigitValue(s[|s| - 1])
  }

  /** Reading the decimal rendering of `n` gives `n` back. */
  lemma {:induction false} ParseNatToString(n: nat)
    ensures ParseDecimal(NatToString(n)) == n
  {
    var s := NatToString(n);
    if n < 10 {
      assert s[..0] == [];
    } else {
      assert s[..|s| - 1] == NatToString(n / 10);
      ParseNatToString(n / 10);
    }
  }

  /** Distinct numbers render as distinct strings. */
  lemma NatToStringInjective(m: nat, n: nat)
    ensures NatToString(m) == NatToString(n) ==> m == n
  {
    ParseNatToString(m);
    ParseNatToString(n);
  }

  const IdPrefix: string := "id: "

  /** `getLabelForDataPoint`: the node's own label if it has one, else "id: " and its index. */
  function Label(d: Node): (r: string)
    ensures d.l.Some? ==> r == d.l.value
    ensures d.l.None? ==> |r| > |IdPrefix| && forall k :: |IdPrefix| <= k < |r| ==> IsDigit(r[k])
    ensures d.l.None? ==> r[..|IdPrefix|] == IdPrefix && ParseDecimal(r[|IdPrefix|..]) == d.i
    ensures d.l.None? ==> |r| == |IdPrefix| + 1 || r[|IdPrefix|] != '0'
  {
    match d.l
    case Some(text) => text
    case None =>
      var r := IdPrefix + NatToString(d.i);
      assert r[|IdPrefix|..] == NatToString(d.i);
      ParseNatToString(d.i);
      r
  }

  /** Two unlabelled nodes with the same label have the same index. */
  lemma LabelIdentifiesIndex(d: Node, e: Node)
    requires d.l.None? && e.l.None?
    ensures Label(d) == Label(e) <==> d.i == e.i
  {
  }

  /**
   `buildTooltip` for node `d` drawn at pixel (cx, cy) on a plot of the given
   size: None when the node lies outside the plot, otherwise the tooltip box.
   Any earlier tooltip is removed in both cases, so the result replaces it.
   */
  function BuildTooltip(d: Node, cx: real, cy: real, width: real, height: real, m: Margin): (r: Option<TooltipEl>)
    ensures r.Some? <==> 0.0 <= cx <= width - m.left - m.right && 0.0 <= cy <= height - m.top - m.bottom
    ensures r.Some? ==> r.value.text == Label(d)
    ensures r.Some? ==>
      r.value.width == BoxWidth && r.value.left == cx + m.left - BoxWidth / 2.0 && r.value.bottom == height - cy + d.s + 5.0
  {
    var text := Label(d);
    if cx < 0.0 || cx > width - m.left - m.right then None
    else if cy < 0.0 || cy > height - m.top - m.bottom then None
    else Some(TooltipEl(text, cx + m.left - 50.0, height - cy + d.s + 5.0, BoxWidth))
  }

  /**
   With the plot's zero margins a built tooltip is horizontally centred on the
   node, and its lower edge sits the node's radius plus 5px above the node's
   centre (pixel y grows downwards, CSS `bottom` upwards).
   */
  lemma TooltipCentredAboveNode(d: Node, cx: real, cy: real, width: real, height: real)
    requires 0.0 <= cx <= width && 0.0 <= cy <= height
    ensures var r := BuildTooltip(d, cx, cy, width, height, PlotMargin);
      && r.Some?
      && r.value.width == BoxWidth
      && r.value.left == cx - 50.0
      && r.value.left + r.value.width / 2.0 == cx
      && height - r.value.bottom == cy - d.s - 5.0
  {
  }
}
