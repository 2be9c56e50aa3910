/** Polygons and multi-polygons as given data, and the largest-piece anchor
    rule of `argmax` and `largest_piece_centroid`.  Areas and centroids are
    supplied with each piece; no polygon geometry is computed here. */
module Geometry {
  import opened Results
  import opened Seqs

  datatype Point = Point(x: real, y: real)

  /** One contiguous polygon, with its area and its centroid. */
  datatype Piece = Piece(area: real, centroid: Point)

  /** A single polygon, or a collection of pieces. */
  datatype Geometry =
    | Polygon(piece: Piece)
    | MultiPolygon(pieces: seq<Piece>)

  /** `[g.area for g in poly.geoms]` */
  function Areas(pieces: seq<Piece>): seq<real>
  {
    seq(|pieces|, i requires 0 <= i < |pieces| => pieces[i].area)
  }

  /** `geometry.area`: a multi-polygon's area is the sum of its pieces' areas. */
  function Area(g: Geometry): real
  {
    match g
    case Polygon(p) => p.area
    case MultiPolygon(ps) => Sum(Areas(ps))
  }

  /** The geometries for which the anchor rule does not raise. */
  predicate HasAnchor(g: Geometry)
  {
    g.Polygon? || |g.pieces| > 0
  }

  /** `k` is the index of a maximum of `values` and no earlier entry reaches it. */
  predicate IsFirstMax(values: seq<real>, k: int)
  {
    && 0 <= k < |values|
    && (forall j :: 0 <= j < |values| ==> values[j] <= values[k])
    && (forall j :: 0 <= j < k ==> values[j] < values[k])
  }

  /** The scan of Python's `max` over `range(len(values))` keyed by the values:
      the candidate is replaced only by a strictly larger value. */
  function ArgmaxFrom(values: seq<real>, best: nat, i: nat): (k: nat)
    requires best < i <= |values|
    requires IsFirstMax(values[..i], best)
    ensures IsFirstMax(values, k)
    decreases |values| - i
  {
    if i == |values| then
      assert values[..i] == values;
      best
    else if values[i] > values[best] then
      ArgmaxFrom(values, i, i + 1)
    else
      ArgmaxFrom(values, best, i + 1)
  }

  /** `argmax(values)`: the first index holding the largest value. */
  function Argmax(values: seq<real>): (k: nat)
    requires |values| > 0
    ensures IsFirstMax(values, k)
    ensures forall j :: IsFirstMax(values, j) ==> j == k
  {
    ArgmaxFrom(values, 0, 1)
  }

  /** `largest_piece_centroid(poly)`: the polygon's own centroid, or the
      centroid of the first piece of largest area. */
  function LargestPieceCentroid(g: Geometry): (r: Result<Point>)
    ensures r.Ok? <==> HasAnchor(g)
    ensures r.Err? ==> r.error == EmptyMultiPolygon
    ensures g.Polygon? ==> r == Ok(g.piece.centroid)
    ensures g.MultiPolygon? && r.Ok? ==>
              exists k :: 0 <= k < |g.pieces| && IsFirstMax(Areas(g.pieces), k)
                          && r.value == g.pieces[k].centroid
  {
    match g
    case Polygon(p) => Ok(p.centroid)
    case MultiPolygon(ps) =>
      if |ps| == 0 then Err(EmptyMultiPolygon)
      else
        var k := Argmax(Areas(ps));
        Ok(ps[k].centroid)
  }

  /** No piece of a multi-polygon is strictly larger than the anchor's piece,
      and every piece before it is strictly smaller. */
  lemma AnchorPieceIsLargest(ps: seq<Piece>)
    requires |ps| > 0
    ensures exists k :: 0 <= k < |ps| && LargestPieceCentroid(MultiPolygon(ps)) == Ok(ps[k].centroid)
                        && (forall i :: 0 <= i < |ps| ==> ps[i].area <= ps[k].area)
                        && (forall i :: 0 <= i < k ==> ps[i].area < ps[k].area)
  {
    var k := Argmax(Areas(ps));
    assert forall i :: 0 <= i < |ps| ==> Areas(ps)[i] == ps[i].area;
  }
}
