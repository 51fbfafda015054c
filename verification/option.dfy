/** An optional value: JavaScript's `null`/absent key on one side, a present value on the other. */
module Options {

  datatype Option<+T> = None | Some(value: T) {

    /** The present value, or `default` when absent. */
    function GetOr(default: T): T {
      match this
      case Some(v) => v
      case None => default
    }
  }
}
