# World map label rules in Dafny

This project models the deterministic rules at the heart of the world-map
script (`world_map.py` with its settings in `config.py`). Geometry is given
data: every polygon piece carries its area and centroid. The model covers:

- **Largest-piece anchor** (`argmax`, `largest_piece_centroid`). A label sits
  at the polygon's own centroid. For a multi-polygon it sits at the centroid of
  the first piece of largest area. A multi-polygon without pieces makes Python's
  `max` raise; here that is `Err(EmptyMultiPolygon)`.
- **Country classification** (`plot_countries`). The colour is
  `ALLOWED_COUNTRY_COLORS[MAPCOLOR7 - 1]` under Python list indexing. The font
  is large only when `area > COUNTRY_AREA_THRESH`. The label joins the overlap
  working set only when `area < COUNTRY_AREA_THRESH`. A country exactly at the
  threshold therefore gets the small font and stays out of the working set. The
  two returned lists stay aligned entry by entry and follow input order.
- **Connector post-processing** (`patch_length`, `adjust_country_labels`). A
  path's length is the sum of its segment lengths. Connector `i` is removed when
  shorter than `MIN_ARROW_LENGTH`; otherwise only its colour changes, to
  `country_colors[i]`.
- **Ocean-basin labels** (`label_ocean_basins`). Exactly the rank-0 basins are
  labelled, in input order, with the upper-cased name at the largest-piece
  centroid.
- **Figure arithmetic**. The four tropic and polar latitudes form a list closed
  under negation. The page size is converted from millimetres to inches.

Modules: `Results` (error values), `Config` (constants), `Seqs` (sums and
filter positions), `Text`, `Geometry`, `Paths`, `Countries`, `Connectors`,
`Basins`, `Figure`, and `Scenarios` (worked examples).

Two consequences of the code are worth stating:

- `config.py:9-17` fixes exactly seven colours. Python indexing at
  `world_map.py:56` also accepts `MAPCOLOR7` values 0..-6, which wrap to the
  end of the palette; only values below -6 or above 7 raise.
  `Countries.CountryColor` states both halves.
- `world_map.py:67-75` draws every country's label. Only the labels of
  countries with area below the threshold are returned (`world_map.py:77-79`)
  for overlap resolution. `CountryPlot.drawn` holds all of them.

## Model

| member | source | states |
|---|---|---|
| `Geometry.ArgmaxFrom` | world_map.py:15-17 | scanning from a first maximum of a prefix, replacing it only by a strictly larger value, ends at the first maximum of the whole sequence |
| `Geometry.Argmax` | world_map.py:15-17 | on a non-empty sequence the result is an in-range index whose value is at least every entry, every earlier entry is strictly smaller, and it is the only index with that property |
| `Geometry.LargestPieceCentroid` | world_map.py:20-39 | a polygon yields its own centroid; a non-empty multi-polygon yields the centroid of a piece that is a first maximum by area; it fails exactly on an empty multi-polygon |
| `Geometry.AnchorPieceIsLargest` | world_map.py:35-38 | the anchor piece has no strictly larger piece, and every piece before it is strictly smaller |
| `Seqs.SumNonNegative` | world_map.py:45 | a sum of non-negative terms is non-negative |
| `Seqs.Positions` | world_map.py:77-79 | the kept indices are exactly the indices whose flag holds, all in range, strictly increasing |
| `Seqs.PositionsPartition` | world_map.py:132-136 | the indices kept by a filter and by its complement together number the whole sequence |
| `Seqs.ValuesPositions` | world_map.py:132-134 | after removals, the j-th remaining value is the entry at the j-th still-present position |
| `Text.UpperChar` | world_map.py:69 | the result is never a lower-case ASCII letter; lower-case letters move down by 32 and every other character is unchanged |
| `Text.Upper` | world_map.py:93 | upper-casing keeps the length, maps each character by `UpperChar`, and leaves no lower-case ASCII letter |
| `Text.UpperIdempotent` | world_map.py:69 | upper-casing twice gives the same text as upper-casing once |
| `Paths.PatchLength` | world_map.py:42-45 | a path's length is non-negative and is 0 for a path of at most one vertex |
| `Paths.PatchLengthSnoc` | world_map.py:42-45 | adding one vertex adds exactly the new segment's length |
| `Paths.PatchLengthConcat` | world_map.py:42-45 | the length of two joined paths is their lengths plus the bridging segment |
| `Paths.PatchLengthPrefix` | world_map.py:42-45 | a path is at least as long as any of its initial sub-paths |
| `Countries.CountryColor` | world_map.py:56 | categories 1..7 give palette entry i-1; 0..-6 wrap to entry i+6; every other index fails with `PaletteIndexOutOfRange` |
| `Countries.CategoriesGetDistinctColors` | config.py:9-17 | two categories in 1..7 with the same colour are the same category |
| `Countries.CountryLabel` | world_map.py:55-75 | the label exists iff the country is well formed; a bad category is reported before an empty geometry; the label's text, anchor and colour come from the anchor and colour rules; the font size is 8 iff the area exceeds the threshold and 4 otherwise |
| `Countries.Collect` | world_map.py:53-81 | the loop succeeds iff every iteration up to `n` succeeds; on success it has drawn one label per iteration and returns equally long colour and label lists |
| `Countries.CollectDrawsEvery` | world_map.py:67-75 | the i-th drawn label is the outcome of iteration i |
| `Countries.CollectWorkingSet` | world_map.py:77-79 | the j-th returned label is the label drawn at the j-th flagged iteration, and the j-th returned colour is that label's colour |
| `Countries.CollectFirstError` | world_map.py:55-75 | when iteration i is the first to fail, the loop fails with exactly that iteration's error |
| `Countries.PlotCountries` | world_map.py:48-81 | succeeds iff every country is well formed; on success one label is drawn per country and the colour and label lists have equal length |
| `Countries.PlotCountriesDrawsEveryCountry` | world_map.py:55-75 | on success the i-th drawn label is the label of country i, including countries at or above the threshold |
| `Countries.PlotCountriesWorkingSet` | world_map.py:63-81 | on success the returned labels are, in order, the labels of exactly the countries whose area is below the threshold, and each returned colour is the colour of the label at the same index |
| `Countries.PlotCountriesFirstError` | world_map.py:55-68 | when country i is the first that is not well formed, the run fails with that country's error: a bad category before an empty geometry |
| `Countries.FirstFailureExists` | world_map.py:55 | every run that does not succeed has a first failing country |
| `Countries.WorkingSetIsSmallFont` | world_map.py:63-79 | a label that joins the working set has the small font size, 4 |
| `Countries.ThresholdCountryIsSmallButUnmanaged` | world_map.py:63-79 | a country with area equal to the threshold gets the small font size, 4, and its index is not in the working set |
| `Connectors.PostprocessConnector` | world_map.py:133-136 | a patch is removed iff its length is below the minimum; a kept patch takes the given colour, and its vertices and style are unchanged |
| `Connectors.AdjustCountryLabels` | world_map.py:128-136 | one entry per patch, entry i being the outcome of post-processing patch i: removed iff its length is below the minimum, otherwise patch i recoloured to the colour at the same position, `colors[i]`, with vertices and style unchanged |
| `Connectors.SurvivorsInOrder` | world_map.py:132-136 | when every entry is its patch's post-processing outcome, the remaining patches are exactly the long ones, recoloured, in their original order, and survivors plus removed patches number all patches |
| `Basins.LabelOceanBasins` | world_map.py:84-97 | succeeds iff every rank-0 basin has an anchor, so a basin of another rank with no pieces does no harm; otherwise it fails with `EmptyMultiPolygon` |
| `Basins.LabelOceanBasinsSelectsRankZero` | world_map.py:89-93 | the labels correspond one to one, in order, to the rank-0 basins, each with the upper-cased name at the largest-piece centroid |
| `Figure.ReferenceLatitudes` | world_map.py:120 | four latitudes containing t and -t, closed under negation, within [-90, 90] when 0 <= t <= 90 |
| `Figure.TropicsAndPolarCircles` | config.py:70 | the drawn circles for `TROPICS_LAT` are closed under negation and lie within [-90, 90] |
| `Figure.FigureSizeInches` | world_map.py:142 | converting back by 25.4 mm per inch returns the millimetre size |
| `Figure.PageIsLandscape` | world_map.py:142 | for every page wider than tall and of positive size in millimetres, the size in inches is also wider than tall and positive |
| `Scenarios.SinglePolygonAnchor` | world_map.py:31-33 | a square centred on (10, 10) is anchored at (10, 10) |
| `Scenarios.LargerPieceAnchor` | world_map.py:34-38 | of pieces with areas 1 and 4 the second, larger piece anchors the label |
| `Scenarios.TiedPiecesFirstWins` | world_map.py:15-17 | of two pieces of equal area the first anchors the label |
| `Scenarios.EmptyMultiPolygonFails` | world_map.py:35-36 | a multi-polygon without pieces has no anchor |
| `Scenarios.CategoryColors` | world_map.py:56 | category 3 is `tab:red`, category 0 wraps to `tab:olive`, category 8 fails |
| `Scenarios.ShortAndLongConnector` | world_map.py:133-136 | with minimum length 1 a connector of length 0.5 is removed and one of length 2 is kept and recoloured |
| `Scenarios.ConnectorAtMinimumKept` | world_map.py:133 | a connector exactly as long as the minimum is kept |
| `Scenarios.OnlyRankZeroBasinLabelled` | world_map.py:89-97 | of a rank-0 and a rank-3 basin only the first is labelled, even though the second has no pieces |

## Left out

- Shapefile access (`shpreader.natural_earth`, `Reader`): countries and basins are given as sequences of records.
- Shapely's area and centroid computation: each piece carries its area and centroid as given reals.
- `Paths.PatchLength`: the Euclidean norm is replaced by an arbitrary non-negative distance (`Paths.Metric`), since it needs a square root.
- The adjustText optimiser itself: its returned patches are an input, and the model requires no more patches than colours. `world_map.py:136` recolours patch `i` with the colour at position `i`. That this is the colour of the label the patch points to is an assumption about adjustText, not something the model proves. The call passes `min_arrow_len=0` (`world_map.py:131`), so if adjustText gave some label no patch, later patches would take the colour of an earlier label.
- All drawing: `add_geometries`, `ax.text` styling, `add_feature`, coastlines, `draw_gridlines`, `hlines`, figure creation, `savefig`.
- `Text.Upper`: only ASCII letters are case-mapped; Python's Unicode upper-casing of other letters, which can change the length, is not modelled.
- The pass-through style dictionaries of `config.py` (`*_KWARGS`, `COUNTRY_ALPHA`, `FILENAME`).
- `main`: the order of calls is not modelled as a pipeline; each step is modelled on its own.
- Floating point: all areas, lengths and coordinates are exact reals.
- A failed run's partial drawing: once Python raises, labels drawn so far are lost; the model returns only the error.
