/** Failure-carrying values shared by the converter's components. */
module Common {

  /** A value that may be absent, as `None` is in the converter. */
  datatype Option<T> = None | Some(value: T)

  /** Why a frame or a file could not be converted. */
  datatype Error =
    | DegenerateWindow        // the window's low and high bounds coincide
    | FlatRange               // the observed minimum equals the observed maximum
    | UnsupportedDepth(depth: int)

  /** The samples of one frame, in row-major order; the row and column
      shape plays no part in any transform. */
  type Frame = seq<int>

  datatype Result<T> = Ok(value: T) | Err(error: Error)
}
