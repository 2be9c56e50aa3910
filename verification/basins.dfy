/** `label_ocean_basins`: only the scale-rank-0 marine polygons are labelled,
    with their upper-cased name at their largest piece's centroid. */
module Basins {
  import opened Results
  import opened Seqs
  import opened Text
  import opened Geometry

  /** One record of the marine-polygons shapefile. */
  datatype Basin = Basin(name: string, scalerank: int, geometry: Geometry)

  datatype BasinLabel = BasinLabel(text: string, anchor: Point)

  /** Which basins are labelled. */
  function RankZeroFlags(bs: seq<Basin>): (r: seq<bool>)
    ensures |r| == |bs|
    ensures forall i :: 0 <= i < |bs| ==> (r[i] <==> bs[i].scalerank == 0)
  {
    seq(|bs|, i requires 0 <= i < |bs| => bs[i].scalerank == 0)
  }

  /** The inputs on which `label_ocean_basins` does not raise: only the
      labelled basins need an anchor. */
  predicate Labellable(bs: seq<Basin>)
  {
    forall i :: 0 <= i < |bs| && bs[i].scalerank == 0 ==> HasAnchor(bs[i].geometry)
  }

  /** `label_ocean_basins`: the labels of the rank-0 basins, in input order. */
  function LabelOceanBasins(bs: seq<Basin>): (r: Result<seq<BasinLabel>>)
    ensures r.Ok? <==> Labellable(bs)
    ensures r.Err? ==> r.error == EmptyMultiPolygon
    decreases |bs|
  {
    if |bs| == 0 then Ok([])
    else
      var n := |bs| - 1;
      match LabelOceanBasins(bs[..n])
      case Err(e) =>
        assert !Labellable(bs[..n]);
        Err(e)
      case Ok(prefix) =>
        if bs[n].scalerank != 0 then Ok(prefix)
        else
          match LargestPieceCentroid(bs[n].geometry)
          case Err(e) => Err(e)
          case Ok(anchor) => Ok(prefix + [BasinLabel(Upper(bs[n].name), anchor)])
  }

  /** The labels correspond one to one, in order, to the rank-0 basins; each
      carries its basin's upper-cased name at its largest-piece centroid. */
  lemma {:induction false} LabelOceanBasinsSelectsRankZero(bs: seq<Basin>)
    requires Labellable(bs)
    ensures var labels, sel := LabelOceanBasins(bs).value, Positions(RankZeroFlags(bs));
            && |labels| == |sel|
            && forall j :: 0 <= j < |sel| ==>
                 && labels[j].text == Upper(bs[sel[j]].name)
                 && Ok(labels[j].anchor) == LargestPieceCentroid(bs[sel[j]].geometry)
    decreases |bs|
  {
    if |bs| > 0 {
      var n := |bs| - 1;
      assert RankZeroFlags(bs) == RankZeroFlags(bs[..n]) + [bs[n].scalerank == 0];
      PositionsSnoc(RankZeroFlags(bs[..n]), bs[n].scalerank == 0);
      assert Labellable(bs[..n]);
      LabelOceanBasinsSelectsRankZero(bs[..n]);
    }
  }
}
