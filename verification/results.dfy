/** Failure-carrying datatypes for the map pipeline.

    The source aborts the whole run with a Python exception on bad input;
    here each such exception becomes an `Err` value naming its cause. */
module Results {

  /** The two ways the core can fail on its input data. */
  datatype Error =
    /** `ALLOWED_COUNTRY_COLORS[MAPCOLOR7 - 1]` indexed outside the list (IndexError). */
    | PaletteIndexOutOfRange
    /** `argmax` over the pieces of a multi-polygon that has none (ValueError from `max`). */
    | EmptyMultiPolygon

  datatype Result<+T> = Ok(value: T) | Err(error: Error)

  datatype Option<+T> = None | Some(value: T)
}
