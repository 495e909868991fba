/** The JavaScript "value or null" slots of the screen, as an Option. */
module Wrappers {
  datatype Option<+T> = None | Some(value: T) {
    /** The value as a sequence of at most one element. */
    function ToSeq(): seq<T> {
      match this
      case None => []
      case Some(v) => [v]
    }
  }
}
