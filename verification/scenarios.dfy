/** Concrete cases of the rules, worked out on small inputs. */
module Scenarios {
  import opened Results
  import opened Config
  import opened Geometry
  import opened Paths
  import opened Countries
  import opened Connectors
  import opened Basins

  /** A single square centred on (10, 10) is anchored at its own centroid. */
  lemma SinglePolygonAnchor()
    ensures LargestPieceCentroid(Polygon(Piece(4.0, Point(10.0, 10.0)))) == Ok(Point(10.0, 10.0))
  {
  }

  /** Of two squares with areas 1 and 4, the larger one anchors the label. */
  lemma LargerPieceAnchor()
    ensures LargestPieceCentroid(MultiPolygon([Piece(1.0, Point(0.0, 0.0)), Piece(4.0, Point(5.0, 5.0))]))
            == Ok(Point(5.0, 5.0))
  {
    assert Areas([Piece(1.0, Point(0.0, 0.0)), Piece(4.0, Point(5.0, 5.0))]) == [1.0, 4.0];
  }

  /** Of two pieces of equal area, the first one anchors the label. */
  lemma TiedPiecesFirstWins()
    ensures LargestPieceCentroid(MultiPolygon([Piece(4.0, Point(0.0, 0.0)), Piece(4.0, Point(5.0, 5.0))]))
            == Ok(Point(0.0, 0.0))
  {
    assert Areas([Piece(4.0, Point(0.0, 0.0)), Piece(4.0, Point(5.0, 5.0))]) == [4.0, 4.0];
  }

  /** A multi-polygon without pieces has no anchor. */
  lemma EmptyMultiPolygonFails()
    ensures LargestPieceCentroid(MultiPolygon([])) == Err(EmptyMultiPolygon)
  {
  }

  /** Category 3 is the third palette entry; category 0 wraps to the last. */
  lemma CategoryColors()
    ensures CountryColor(3) == Ok("tab:red")
    ensures CountryColor(0) == Ok("tab:olive")
    ensures CountryColor(8) == Err(PaletteIndexOutOfRange)
  {
  }

  /** Horizontal distance: the Euclidean length of a horizontal segment. */
  const Horizontal: Metric := (p: Point, q: Point) => if p.x <= q.x then q.x - p.x else p.x - q.x

  /** Connectors of length 0.5 and 2.0 against the minimum length 1: the first
      is removed, the second kept and recoloured. */
  lemma ShortAndLongConnector()
    ensures PostprocessConnector(Horizontal, "tab:red",
              Patch([Point(0.0, 0.0), Point(0.5, 0.0)], "k", "-")) == None
    ensures PostprocessConnector(Horizontal, "tab:red",
              Patch([Point(0.0, 0.0), Point(2.0, 0.0)], "k", "-"))
            == Some(Patch([Point(0.0, 0.0), Point(2.0, 0.0)], "tab:red", "-"))
  {
    var short, long := [Point(0.0, 0.0), Point(0.5, 0.0)], [Point(0.0, 0.0), Point(2.0, 0.0)];
    assert SegmentLengths(Horizontal, short) == [0.5];
    assert SegmentLengths(Horizontal, long) == [2.0];
    assert [0.5][..0] == [] && [2.0][..0] == [];
  }

  /** A connector exactly as long as the minimum is kept. */
  lemma ConnectorAtMinimumKept()
    ensures PostprocessConnector(Horizontal, "tab:red",
              Patch([Point(0.0, 0.0), Point(1.0, 0.0)], "k", "-")).Some?
  {
    var vs := [Point(0.0, 0.0), Point(1.0, 0.0)];
    assert SegmentLengths(Horizontal, vs) == [1.0];
    assert [1.0][..0] == [];
  }

  /** Only the rank-0 basin of two is labelled. */
  lemma OnlyRankZeroBasinLabelled()
    ensures LabelOceanBasins([Basin("Indian Ocean", 0, Polygon(Piece(7.0, Point(80.0, -20.0)))),
                              Basin("Red Sea", 3, MultiPolygon([]))])
            == Ok([BasinLabel("INDIAN OCEAN", Point(80.0, -20.0))])
  {
    var indian := Basin("Indian Ocean", 0, Polygon(Piece(7.0, Point(80.0, -20.0))));
    var bs := [indian, Basin("Red Sea", 3, MultiPolygon([]))];
    assert bs[..1] == [indian];
    assert [indian][..0] == [];
    assert Text.Upper("Indian Ocean") == "INDIAN OCEAN";
    assert LabelOceanBasins([]) == Ok([]);
    assert LabelOceanBasins([indian][..0]) == Ok([]);
    assert LabelOceanBasins([indian]).Ok?;
    assert LabelOceanBasins([indian]).value == [BasinLabel(Text.Upper("Indian Ocean"), Point(80.0, -20.0))];
    assert LabelOceanBasins([indian]) == Ok([BasinLabel("INDIAN OCEAN", Point(80.0, -20.0))]);
  }
}
