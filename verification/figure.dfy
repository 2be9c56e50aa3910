/** The two pieces of arithmetic in the figure set-up: the latitudes of the
    tropic and polar circles, and the page size in inches. */
module Figure {
  import opened Config

  const MillimetresPerInch: real := 25.4

  /** The latitudes passed to `hlines` for a tropic latitude `t`: both tropics
      and both polar circles. */
  function ReferenceLatitudes(t: real): (r: seq<real>)
    ensures |r| == 4
    ensures t in r && -t in r
    ensures forall x :: x in r ==> -x in r
    ensures 0.0 <= t <= 90.0 ==> forall x :: x in r ==> -90.0 <= x <= 90.0
  {
    [-t, t - 90.0, 90.0 - t, t]
  }

  /** The circles drawn on the map. */
  function TropicsAndPolarCircles(): (r: seq<real>)
    ensures forall x :: x in r ==> -x in r && -90.0 <= x <= 90.0
  {
    ReferenceLatitudes(TropicsLat)
  }

  /** `figsize`: millimetres to inches, component-wise. */
  function FigureSizeInches(mm: (real, real)): (r: (real, real))
    ensures r.0 * MillimetresPerInch == mm.0
    ensures r.1 * MillimetresPerInch == mm.1
  {
    (mm.0 / MillimetresPerInch, mm.1 / MillimetresPerInch)
  }

  /** Converting to inches keeps a landscape page landscape. */
  lemma PageIsLandscape(mm: (real, real))
    requires mm.0 > mm.1 > 0.0
    ensures FigureSizeInches(mm).0 > FigureSizeInches(mm).1 > 0.0
  {
  }
}
