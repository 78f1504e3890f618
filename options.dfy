/** A value that may be missing: pandas' NaN in a column of the job table. */
module Options {

  datatype Option<+T> = None | Some(value: T) {

    /** The value, or `default` when it is missing (pandas' `fillna`). */
    function GetOr(default: T): T {
      match this
      case Some(v) => v
      case None => default
    }
  }
}
