/** The optional value returned by every read of emulator memory: `None`
    stands for Python's `None` (not connected, failed read). */
module Options {

  datatype Option<+T> = None | Some(value: T) {

    /** The value held, or `default` for `None`. */
    function GetOr(default: T): T
    {
      match this
      case Some(v) => v
      case None => default
    }
  }
}
