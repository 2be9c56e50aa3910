/** `patch_length`: the length of a connector path as the sum of the lengths
    of its consecutive segments.  The Euclidean norm is abstracted to any
    non-negative distance between two points. */
module Paths {
  import opened Seqs
  import opened Geometry

  /** A segment-length function: never negative. */
  type Metric = d: (Point, Point) -> real | forall p: Point, q: Point :: d(p, q) >= 0.0
    witness (p: Point, q: Point) => 0.0

  /** `norm(diff(vertices, axis=0), axis=1)`: one length per consecutive pair. */
  function SegmentLengths(dist: Metric, vs: seq<Point>): seq<real>
  {
    if |vs| <= 1 then []
    else seq(|vs| - 1, i requires 0 <= i < |vs| - 1 => dist(vs[i], vs[i + 1]))
  }

  /** `patch_length`: the summed segment lengths. */
  function PatchLength(dist: Metric, vs: seq<Point>): (r: real)
    ensures r >= 0.0
    ensures |vs| <= 1 ==> r == 0.0
  {
    SumNonNegative(SegmentLengths(dist, vs));
    Sum(SegmentLengths(dist, vs))
  }

  /** Extending a path by one vertex adds exactly the new segment. */
  lemma PatchLengthSnoc(dist: Metric, vs: seq<Point>, p: Point)
    requires |vs| >= 1
    ensures PatchLength(dist, vs + [p]) == PatchLength(dist, vs) + dist(vs[|vs| - 1], p)
  {
    var s := SegmentLengths(dist, vs + [p]);
    assert s[..|s| - 1] == SegmentLengths(dist, vs);
  }

  /** Joining two paths adds the bridging segment to their lengths. */
  lemma {:induction false} PatchLengthConcat(dist: Metric, a: seq<Point>, b: seq<Point>)
    requires |a| >= 1 && |b| >= 1
    ensures PatchLength(dist, a + b)
            == PatchLength(dist, a) + dist(a[|a| - 1], b[0]) + PatchLength(dist, b)
    decreases |b|
  {
    var n := |b| - 1;
    if n == 0 {
      assert a + b == a + [b[0]];
      PatchLengthSnoc(dist, a, b[0]);
    } else {
      var front := b[..n];
      assert a + b == (a + front) + [b[n]];
      assert b == front + [b[n]];
      PatchLengthSnoc(dist, a + front, b[n]);
      PatchLengthConcat(dist, a, front);
      PatchLengthSnoc(dist, front, b[n]);
    }
  }

  /** A path is at least as long as any of its initial sub-paths. */
  lemma PatchLengthPrefix(dist: Metric, vs: seq<Point>, k: nat)
    requires 1 <= k <= |vs|
    ensures PatchLength(dist, vs[..k]) <= PatchLength(dist, vs)
  {
    if k < |vs| {
      var front, back := vs[..k], vs[k..];
      assert vs == front + back;
      PatchLengthConcat(dist, front, back);
      assert dist(front[k - 1], back[0]) >= 0.0;
      assert PatchLength(dist, back) >= 0.0;
    } else {
      assert vs[..k] == vs;
    }
  }
}
