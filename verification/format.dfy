/**
 `formatData`: raw array-of-arrays input normalised into node and link
 records. The colour list comes from a colour helper outside this model and
 is an input here.
 */
module Format {
  import opened Wrappers
  import opened Graph

  /** The amount `formatData` darkens a node's colour by for its outline. */
  const StrokeDarkening: real := 0.75

  /**
   The raw data: each node's array (positions 0 and 1 are x and y), each
   link's array (source, target, value), the per-node colours, sizes and
   labels (each empty when the data has none).
   */
  datatype RawData = RawData(
    points: seq<(real, real)>,
    links: seq<(nat, nat, real)>,
    colors: seq<Color>,
    sizes: seq<real>,
    labels: seq<string>)

  /**
   A per-node attribute, `arr.length > 1 ? arr[i] : arr[0]`: one entry per
   node when there are several, the single entry broadcast to every node
   otherwise; `None` stands for JavaScript's `undefined`.
   */
  function PerNode<T>(arr: seq<T>, i: nat): (r: Option<T>)
    ensures |arr| > 1 && i < |arr| ==> r == Some(arr[i])
    ensures |arr| == 1 ==> r == Some(arr[0])
    ensures r.None? <==> |arr| == 0 || (|arr| > 1 && i >= |arr|)
  {
    if |arr| > 1 then (if i < |arr| then Some(arr[i]) else None)
    else if |arr| > 0 then Some(arr[0])
    else None
  }

  /** The i-th node record; a missing colour or a missing or zero size falls back to the style default. */
  function FormatNode(raw: RawData, styles: Styles, i: nat): (n: Node)
    requires i < |raw.points|
    ensures n.x == raw.points[i].0 && n.y == raw.points[i].1 && n.i == i
    ensures n.l.None? <==> i >= |raw.labels|
    ensures n.l.Some? ==> n.l.value == raw.labels[i]
    ensures PerNode(raw.colors, i).Some? ==>
      n.c == PerNode(raw.colors, i).value && n.k == Darker(PerNode(raw.colors, i).value, StrokeDarkening)
    ensures PerNode(raw.colors, i).None? ==> n.c == styles.color && n.k == styles.stroke
    ensures PerNode(raw.sizes, i).Some? && PerNode(raw.sizes, i).value != 0.0 ==> n.s == PerNode(raw.sizes, i).value
    ensures PerNode(raw.sizes, i).None? || PerNode(raw.sizes, i).value == 0.0 ==> n.s == styles.size
    ensures styles.size != 0.0 ==> n.s != 0.0
  {
    var c := PerNode(raw.colors, i);
    var s := PerNode(raw.sizes, i);
    Node(raw.points[i].0, raw.points[i].1, i,
         if c.Some? then c.value else styles.color,
         if c.Some? then Darker(c.value, StrokeDarkening) else styles.stroke,
         if s.Some? && s.value != 0.0 then s.value else styles.size,
         if |raw.labels| > i then Some(raw.labels[i]) else None)
  }

  /** A link record from its array: slots 0, 1 and 2 are source, target and value. */
  function FormatLink(raw: (nat, nat, real)): (l: Link)
    ensures l.source == raw.0 && l.target == raw.1 && l.value == raw.2
  {
    Link(raw.0, raw.1, raw.2)
  }

  /** `formatData`: node records indexed by position, and link records. */
  function FormatData(raw: RawData, styles: Styles): (r: (seq<Node>, seq<Link>))
    ensures |r.0| == |raw.points| && |r.1| == |raw.links|
    ensures WellIndexed(r.0)
    ensures forall k :: 0 <= k < |r.0| ==> r.0[k].x == raw.points[k].0 && r.0[k].y == raw.points[k].1
    ensures forall k :: 0 <= k < |r.0| ==> (r.0[k].l.None? <==> k >= |raw.labels|)
    ensures forall k :: 0 <= k < |r.0| && k < |raw.labels| ==> r.0[k].l == Some(raw.labels[k])
    ensures forall k :: 0 <= k < |r.0| ==>
      var c := PerNode(raw.colors, k);
      && (c.Some? ==> r.0[k].c == c.value && r.0[k].k == Darker(c.value, StrokeDarkening))
      && (c.None? ==> r.0[k].c == styles.color && r.0[k].k == styles.stroke)
    ensures forall k :: 0 <= k < |r.0| ==>
      var s := PerNode(raw.sizes, k);
      r.0[k].s == (if s.Some? && s.value != 0.0 then s.value else styles.size)
    ensures forall j :: 0 <= j < |r.1| ==>
      r.1[j].source == raw.links[j].0 && r.1[j].target == raw.links[j].1 && r.1[j].value == raw.links[j].2
  {
    (seq(|raw.points|, k requires 0 <= k < |raw.points| => FormatNode(raw, styles, k)),
     seq(|raw.links|, j requires 0 <= j < |raw.links| => FormatLink(raw.links[j])))
  }

  /** A single colour and a single non-zero size are given to every node. */
  lemma SingleEntryBroadcasts(raw: RawData, styles: Styles)
    requires |raw.colors| == 1 && |raw.sizes| == 1 && raw.sizes[0] != 0.0
    ensures forall k :: 0 <= k < |raw.points| ==>
      var n := FormatData(raw, styles).0[k];
      n.c == raw.colors[0] && n.k == Darker(raw.colors[0], StrokeDarkening) && n.s == raw.sizes[0]
  {
  }

  /** Without colours and sizes every node takes the style defaults. */
  lemma DefaultsWhenAbsent(raw: RawData, styles: Styles)
    requires |raw.colors| == 0 && |raw.sizes| == 0
    ensures forall k :: 0 <= k < |raw.points| ==>
      var n := FormatData(raw, styles).0[k];
      n.c == styles.color && n.k == styles.stroke && n.s == styles.size
  {
  }

  /** With neither colours nor sizes in the data, every node takes the plot's default options. */
  lemma UnstyledNodesUseDefaultOptions(raw: RawData)
    requires |raw.colors| == 0 && |raw.sizes| == 0
    ensures forall k :: 0 <= k < |raw.points| ==>
      var n := FormatData(raw, DefaultStyles).0[k];
      n.c == Hex("#68a1e5") && n.k == Named("white") && n.s == 6.0
  {
    DefaultsWhenAbsent(raw, DefaultStyles);
  }
}
