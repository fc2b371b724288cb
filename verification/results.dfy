/** Failure-carrying values shared by every module of the model.

    The Python scripts signal trouble in three ways: an exception
    (IndexError on `history[-1]`, ZeroDivisionError on `/ T`, a numpy
    shape error), a NaN produced by `np.mean` of an empty slice, or an
    infinite MAPE term. The model turns each of them into an explicit
    `Err` or `None` instead of a partial function. */
module Results {

  /** A value that may be missing; `None` stands for a NaN/inf metric. */
  datatype Option<+T> = None | Some(value: T)

  /** Why an operation produced no value. */
  datatype Error =
    | EmptyHistory      // `history[-1]` on an empty history
    | EmptyWindow       // `np.mean` of an empty slice (NaN)
    | IndexOutOfRange   // `data[t]` with t < -len(data)
    | LengthMismatch    // `demand - forecast_series` with different lengths
    | EmptyHorizon      // `sum(...) / T` with T == 0

  /** The outcome of an operation that can fail. */
  datatype Result<+T> = Ok(value: T) | Err(error: Error)
}
