/** An optional value: `None` stands for Python's `None`, for a missing key, or for an operation that raised. */
module Optional {

  datatype Option<T> = None | Some(value: T) {

    /** The value, or `default` when there is none (`d.get(key, default)`). */
    function GetOr(default: T): (r: T)
      ensures Some? ==> r == value
      ensures None? ==> r == default
    {
      match this
      case Some(v) => v
      case None => default
    }
  }
}
