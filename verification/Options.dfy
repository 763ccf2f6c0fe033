/** The optional value used for nullable columns and nullable results. */
module Options {
  datatype Option<+T> = None | Some(value: T) {
    /** SQL COALESCE of a nullable value with a fallback. */
    function GetOr(default: T): T {
      match this
      case Some(v) => v
      case None => default
    }
  }
}
