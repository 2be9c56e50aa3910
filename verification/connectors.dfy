/** The post-processing half of `adjust_country_labels`: connectors that the
    overlap resolver drew are removed when too short and otherwise recoloured
    to the returned colour at the same position. */
module Connectors {
  import opened Results
  import opened Config
  import opened Seqs
  import opened Geometry
  import opened Paths

  /** A `FancyArrowPatch` returned by the resolver: its path, its colour, and
      the style it was drawn with. */
  datatype Patch = Patch(vertices: seq<Point>, color: Color, arrowStyle: string)

  /** One iteration of the loop: `None` when the patch is removed. */
  function PostprocessConnector(dist: Metric, color: Color, patch: Patch): (r: Option<Patch>)
    ensures r.None? <==> PatchLength(dist, patch.vertices) < MinArrowLength
    ensures r.Some? ==> && r.value.color == color
                        && r.value.vertices == patch.vertices
                        && r.value.arrowStyle == patch.arrowStyle
  {
    if PatchLength(dist, patch.vertices) < MinArrowLength then None
    else Some(patch.(color := color))
  }

  /** Which connectors are long enough to stay. */
  function KeptFlags(dist: Metric, patches: seq<Patch>): (r: seq<bool>)
    ensures |r| == |patches|
    ensures forall i :: 0 <= i < |patches| ==>
              (r[i] <==> PatchLength(dist, patches[i].vertices) >= MinArrowLength)
  {
    seq(|patches|, i requires 0 <= i < |patches| => PatchLength(dist, patches[i].vertices) >= MinArrowLength)
  }

  /** When entry `i` is the outcome of post-processing patch `i`, the surviving
      patches are the long ones, recoloured, in their original order, and the
      survivors and the removed patches together account for every patch. */
  lemma SurvivorsInOrder(dist: Metric, colors: seq<Color>, patches: seq<Patch>, after: seq<Option<Patch>>)
    requires |patches| <= |colors| && |after| == |patches|
    requires forall i :: 0 <= i < |after| ==> after[i] == PostprocessConnector(dist, colors[i], patches[i])
    ensures var kept := Positions(KeptFlags(dist, patches));
            && |Values(after)| == |kept|
            && forall j :: 0 <= j < |kept| ==>
                 Values(after)[j] == patches[kept[j]].(color := colors[kept[j]])
    ensures |Values(after)| + |Positions(Not(KeptFlags(dist, patches)))| == |patches|
  {
    assert Present(after) == KeptFlags(dist, patches);
    ValuesPositions(after);
    PositionsPartition(KeptFlags(dist, patches));
  }

  /** The loop of `adjust_country_labels` over the resolver's patches.  Entry
      `i` of the result is `None` when patch `i` was removed, else patch `i`
      as it is left on the map: a kept patch takes the colour at the same
      position, `colors[i]`.  Which patches survive, and in what order, is
      `SurvivorsInOrder`. */
  method AdjustCountryLabels(dist: Metric, colors: seq<Color>, patches: seq<Patch>)
    returns (after: seq<Option<Patch>>)
    requires |patches| <= |colors|
    ensures |after| == |patches|
    ensures forall i :: 0 <= i < |after| ==>
              (after[i].None? <==> PatchLength(dist, patches[i].vertices) < MinArrowLength)
    ensures forall i :: 0 <= i < |after| && after[i].Some? ==>
              after[i].value == patches[i].(color := colors[i])
    ensures forall i :: 0 <= i < |after| ==> after[i] == PostprocessConnector(dist, colors[i], patches[i])
  {
    after := [];
    for i := 0 to |patches|
      invariant |after| == i
      invariant forall k :: 0 <= k < i ==> after[k] == PostprocessConnector(dist, colors[k], patches[k])
    {
      after := after + [PostprocessConnector(dist, colors[i], patches[i])];
    }
  }
}
