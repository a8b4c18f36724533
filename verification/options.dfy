/** The optional-value type used throughout the model: `None` stands for a
    JavaScript `null` / `undefined` (or an absent field), `Some(v)` for a
    present value. */
module Options {

  datatype Option<+T> = None | Some(value: T) {

    /** The value, or `default` when absent (JavaScript's `??`). */
    function GetOr(default: T): T {
      match this
      case Some(v) => v
      case None => default
    }
  }
}
