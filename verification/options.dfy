/** An Option type for the values the TypeScript source leaves `undefined`,
    and for operations that throw instead of returning. */
module Options {

  datatype Option<+T> = None | Some(value: T) {

    /** The value in Some, or `default` for None: the source's `x || default`
        for a value whose only falsy form is `undefined`. */
    function GetOr(default: T): (r: T)
      ensures Some? ==> r == value
      ensures None? ==> r == default
    {
      match this
      case Some(v) => v
      case None => default
    }
  }
}
