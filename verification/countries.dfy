/** `plot_countries`: the colour of each country, the font size and anchor of
    its label, and the working set of small-country labels handed on to the
    overlap resolver, together with the colours aligned to them. */
module Countries {
  import opened Results
  import opened Config
  import opened Seqs
  import opened Text
  import opened Geometry

  /** One record of the admin-0 countries shapefile. */
  datatype Country = Country(name: string, mapcolor7: int, geometry: Geometry)

  /** A label placed by `ax.text`, with its font size in points. */
  datatype Label = Label(text: string, anchor: Point, size: nat, color: Color)

  /** What `plot_countries` leaves behind: every drawn label, in input order,
      and the two lists it returns. */
  datatype CountryPlot = CountryPlot(drawn: seq<Label>, colors: seq<Color>, labels: seq<Label>)

  /** Python's `xs[j]` on a list: negative indices count from the end. */
  function ListIndex<T>(xs: seq<T>, j: int): Result<T>
  {
    if 0 <= j < |xs| then Ok(xs[j])
    else if -|xs| <= j < 0 then Ok(xs[|xs| + j])
    else Err(PaletteIndexOutOfRange)
  }

  /** `ALLOWED_COUNTRY_COLORS[MAPCOLOR7 - 1]`.  The categories 1..7 pick the
      palette in order; 0..-6 wrap around to its end as Python indexing does;
      anything else raises. */
  function CountryColor(mapcolor7: int): (r: Result<Color>)
    ensures 1 <= mapcolor7 <= 7 ==> r == Ok(Palette[mapcolor7 - 1])
    ensures -6 <= mapcolor7 <= 0 ==> r == Ok(Palette[mapcolor7 + 6])
    ensures r.Err? <==> mapcolor7 < -6 || 7 < mapcolor7
    ensures r.Err? ==> r.error == PaletteIndexOutOfRange
  {
    ListIndex(Palette, mapcolor7 - 1)
  }

  /** The seven categories get seven different colours. */
  lemma CategoriesGetDistinctColors(i: int, j: int)
    requires 1 <= i <= 7 && 1 <= j <= 7
    requires CountryColor(i) == CountryColor(j)
    ensures i == j
  {
  }

  /** The font size of a country's label: large only above the threshold. */
  function FontSize(area: real): nat
  {
    if area > CountryAreaThresh then LargeCountryFontSize else SmallCountryFontSize
  }

  /** Whether a label joins the overlap working set: only below the threshold. */
  predicate InWorkingSet(area: real)
  {
    area < CountryAreaThresh
  }

  /** The countries that `plot_countries` handles without raising. */
  predicate WellFormed(c: Country)
  {
    -6 <= c.mapcolor7 <= 7 && HasAnchor(c.geometry)
  }

  predicate AllWellFormed(cs: seq<Country>)
  {
    forall i :: 0 <= i < |cs| ==> WellFormed(cs[i])
  }

  /** One iteration of the loop of `plot_countries`: the colour is looked up
      first, so a bad category is reported before an empty geometry. */
  function CountryLabel(c: Country): (r: Result<Label>)
    ensures r.Ok? <==> WellFormed(c)
    ensures !(-6 <= c.mapcolor7 <= 7) ==> r == Err(PaletteIndexOutOfRange)
    ensures -6 <= c.mapcolor7 <= 7 && !HasAnchor(c.geometry) ==> r == Err(EmptyMultiPolygon)
    ensures r.Ok? ==> && r.value.text == Upper(c.name)
                      && Ok(r.value.anchor) == LargestPieceCentroid(c.geometry)
                      && Ok(r.value.color) == CountryColor(c.mapcolor7)
                      && (r.value.size == LargeCountryFontSize <==> Area(c.geometry) > CountryAreaThresh)
                      && (r.value.size == SmallCountryFontSize <==> Area(c.geometry) <= CountryAreaThresh)
  {
    match CountryColor(c.mapcolor7)
    case Err(e) => Err(e)
    case Ok(color) =>
      var size := FontSize(Area(c.geometry));
      match LargestPieceCentroid(c.geometry)
      case Err(e) => Err(e)
      case Ok(anchor) => Ok(Label(Upper(c.name), anchor, size, color))
  }

  /** Which countries' labels enter the working set. */
  function SmallFlags(cs: seq<Country>): (r: seq<bool>)
    ensures |r| == |cs|
    ensures forall i :: 0 <= i < |cs| ==> (r[i] <==> InWorkingSet(Area(cs[i].geometry)))
  {
    seq(|cs|, i requires 0 <= i < |cs| => InWorkingSet(Area(cs[i].geometry)))
  }

  /** `i` is the first country on which `plot_countries` raises. */
  predicate FirstFailure(cs: seq<Country>, i: int)
  {
    0 <= i < |cs| && !WellFormed(cs[i]) && AllWellFormed(cs[..i])
  }

  /** The loop of `plot_countries` after its first `n` iterations, given the
      outcome of each iteration in input order: each label is drawn, and a
      label whose flag holds is also appended, with its colour, to the two
      returned lists.  The loop raises at its first failing iteration. */
  function Collect(steps: seq<Result<Label>>, small: seq<bool>, n: nat): (r: Result<CountryPlot>)
    requires |steps| == |small| && n <= |steps|
    ensures r.Ok? <==> forall i :: 0 <= i < n ==> steps[i].Ok?
    ensures r.Ok? ==> |r.value.drawn| == n
    ensures r.Ok? ==> |r.value.colors| == |r.value.labels|
    decreases n
  {
    if n == 0 then Ok(CountryPlot([], [], []))
    else
      match Collect(steps, small, n - 1)
      case Err(e) => Err(e)
      case Ok(p) =>
        match steps[n - 1]
        case Err(e) => Err(e)
        case Ok(t) =>
          if small[n - 1] then Ok(CountryPlot(p.drawn + [t], p.colors + [t.color], p.labels + [t]))
          else Ok(CountryPlot(p.drawn + [t], p.colors, p.labels))
  }

  /** Entry `i` of the drawn labels is the outcome of iteration `i`. */
  lemma {:induction false} CollectDrawsEvery(steps: seq<Result<Label>>, small: seq<bool>, n: nat)
    requires |steps| == |small| && n <= |steps|
    requires Collect(steps, small, n).Ok?
    ensures forall i :: 0 <= i < n ==> steps[i] == Ok(Collect(steps, small, n).value.drawn[i])
    decreases n
  {
    if n > 0 {
      CollectDrawsEvery(steps, small, n - 1);
    }
  }

  /** The returned labels and colours belong, entry by entry, to the
      iterations whose flag holds, in order. */
  lemma {:induction false} CollectWorkingSet(steps: seq<Result<Label>>, small: seq<bool>, n: nat)
    requires |steps| == |small| && n <= |steps|
    requires Collect(steps, small, n).Ok?
    ensures var plot, sel := Collect(steps, small, n).value, Positions(small[..n]);
            && |plot.labels| == |sel| && |plot.colors| == |sel|
            && forall j :: 0 <= j < |sel| ==>
                 plot.labels[j] == plot.drawn[sel[j]] && plot.colors[j] == plot.drawn[sel[j]].color
    decreases n
  {
    if n > 0 {
      var m := n - 1;
      CollectWorkingSet(steps, small, m);
      assert small[..n] == small[..m] + [small[m]];
      PositionsSnoc(small[..m], small[m]);
      var plot, prev := Collect(steps, small, n).value, Collect(steps, small, m).value;
      var sel, prevSel := Positions(small[..n]), Positions(small[..m]);
      assert sel == prevSel + (if small[m] then [m] else []);
      forall j | 0 <= j < |sel|
        ensures plot.labels[j] == plot.drawn[sel[j]] && plot.colors[j] == plot.drawn[sel[j]].color
      {
        if j < |prevSel| {
          assert sel[j] == prevSel[j] && prevSel[j] < m;
        }
      }
    }
  }

  /** Iteration `i`, of the first `n`, is the first to fail. */
  predicate FailsFirstAt(steps: seq<Result<Label>>, n: nat, i: int)
  {
    0 <= i < n <= |steps| && steps[i].Err? && forall k :: 0 <= k < i ==> steps[k].Ok?
  }

  /** A loop whose first failing iteration is `i` reports that iteration's
      error. */
  lemma {:induction false} CollectFirstError(steps: seq<Result<Label>>, small: seq<bool>, n: nat, i: nat)
    requires |steps| == |small| && FailsFirstAt(steps, n, i)
    ensures Collect(steps, small, n) == Err(steps[i].error)
    decreases n
  {
    if i < n - 1 {
      CollectFirstError(steps, small, n - 1, i);
    } else {
      assert Collect(steps, small, n - 1).Ok?;
    }
  }

  /** The outcome of each iteration of `plot_countries`. */
  function Steps(cs: seq<Country>): (r: seq<Result<Label>>)
    ensures |r| == |cs|
    ensures forall i :: 0 <= i < |cs| ==> r[i] == CountryLabel(cs[i])
  {
    seq(|cs|, i requires 0 <= i < |cs| => CountryLabel(cs[i]))
  }

  /** `plot_countries`: on success every country has a drawn label, and the
      returned colours are those of the returned labels, entry by entry. */
  function PlotCountries(cs: seq<Country>): (r: Result<CountryPlot>)
    ensures r.Ok? <==> AllWellFormed(cs)
    ensures r.Ok? ==> |r.value.drawn| == |cs|
    ensures r.Ok? ==> |r.value.colors| == |r.value.labels|
  {
    Collect(Steps(cs), SmallFlags(cs), |cs|)
  }

  /** Entry `i` of the drawn labels is the label of country `i`. */
  lemma PlotCountriesDrawsEveryCountry(cs: seq<Country>)
    requires AllWellFormed(cs)
    ensures forall i :: 0 <= i < |cs| ==> CountryLabel(cs[i]) == Ok(PlotCountries(cs).value.drawn[i])
  {
    CollectDrawsEvery(Steps(cs), SmallFlags(cs), |cs|);
  }

  /** The returned labels and colours belong, entry by entry, to the countries
      below the area threshold, in input order. */
  lemma PlotCountriesWorkingSet(cs: seq<Country>)
    requires AllWellFormed(cs)
    ensures var plot, sel := PlotCountries(cs).value, Positions(SmallFlags(cs));
            && |plot.labels| == |sel| && |plot.colors| == |sel|
            && forall j :: 0 <= j < |sel| ==>
                 plot.labels[j] == plot.drawn[sel[j]] && plot.colors[j] == plot.drawn[sel[j]].color
  {
    CollectWorkingSet(Steps(cs), SmallFlags(cs), |cs|);
    assert SmallFlags(cs)[..|cs|] == SmallFlags(cs);
  }

  /** A failed run reports the error of the first country that fails. */
  lemma PlotCountriesFirstError(cs: seq<Country>, i: nat)
    requires FirstFailure(cs, i)
    ensures PlotCountries(cs) == Err(CountryLabel(cs[i]).error)
  {
    CollectFirstError(Steps(cs), SmallFlags(cs), |cs|, i);
  }

  /** Every failed run has a first failing country. */
  lemma {:induction false} FirstFailureExists(cs: seq<Country>)
    requires !AllWellFormed(cs)
    ensures exists i :: FirstFailure(cs, i)
  {
    var n := |cs| - 1;
    if AllWellFormed(cs[..n]) {
      assert FirstFailure(cs, n);
    } else {
      FirstFailureExists(cs[..n]);
      var i :| FirstFailure(cs[..n], i);
      assert cs[..n][..i] == cs[..i];
      assert FirstFailure(cs, i);
    }
  }

  /** A label in the working set always has the small font. */
  lemma WorkingSetIsSmallFont(c: Country)
    requires WellFormed(c) && InWorkingSet(Area(c.geometry))
    ensures CountryLabel(c).value.size == SmallCountryFontSize
  {
  }

  /** The boundary case: a country whose area equals the threshold gets the
      small font, yet its label does not join the working set. */
  lemma ThresholdCountryIsSmallButUnmanaged(cs: seq<Country>, i: nat)
    requires i < |cs| && WellFormed(cs[i]) && Area(cs[i].geometry) == CountryAreaThresh
    ensures CountryLabel(cs[i]).value.size == SmallCountryFontSize
    ensures i !in Positions(SmallFlags(cs))
  {
  }
}
