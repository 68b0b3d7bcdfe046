/** The optional value used wherever the JavaScript code has `undefined`,
    `null` or a `NaN` that comes from a failed `parseInt`. */
module Options {

  datatype Option<+T> = None | Some(value: T) {

    /** Returns the value held, or `default` when there is none. */
    function GetOr(default: T): T {
      match this
      case Some(v) => v
      case None => default
    }
  }
}
