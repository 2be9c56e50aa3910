/** The constants of `config.py` that the core's rules depend on. */
module Config {

  /** A matplotlib colour name. */
  type Color = string

  /** `ALLOWED_COUNTRY_COLORS`: one colour per MAPCOLOR7 category, in order. */
  const Palette: seq<Color> := [
    "tab:orange", "tab:green", "tab:red", "tab:purple",
    "tab:brown", "tab:gray", "tab:olive"
  ]

  /** `COUNTRY_AREA_THRESH`, in the geometry's own (square-degree) units. */
  const CountryAreaThresh: real := 500.0

  const LargeCountryFontSize: nat := 8
  const SmallCountryFontSize: nat := 4

  /** `MIN_ARROW_LENGTH`: connectors shorter than this are removed. */
  const MinArrowLength: real := 1.0

  /** `TROPICS_LAT`, in degrees. */
  const TropicsLat: real := 23.43604

  /** `PAGE_SIZE_MM`: width and height of the page in millimetres. */
  const PageSizeMm: (real, real) := (420.0, 297.0)
}
