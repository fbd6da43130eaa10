/** Optional values: the model's stand-in for JavaScript's `undefined`, `null` and `NaN` results. */
module Options {
  datatype Option<+T> = None | Some(value: T) {
    /** The value, or `default` when absent (JavaScript's `??`). */
    function GetOr(default: T): T {
      match this
      case Some(v) => v
      case None => default
    }
  }
}
