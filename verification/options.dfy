/** An optional value, used for the registry's single-subsystem slots. */
module Options {

  datatype Option<+T> = None | Some(value: T) {

    /** The slot's contents as a sequence: empty when the slot is unset. */
    function Elements(): (s: seq<T>)
      ensures |s| == (if Some? then 1 else 0)
      ensures Some? ==> s[0] == value
    {
      match this
      case None => []
      case Some(v) => [v]
    }
  }
}
