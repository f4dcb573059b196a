/** The "present value or absent" results that the Python code expresses with None. */
module Options {

  datatype Option<+T> = None | Some(value: T) {

    /** dict.get(key, default): the value if present, else the default. */
    function GetOr(default: T): T {
      match this
      case Some(v) => v
      case None => default
    }
  }
}
