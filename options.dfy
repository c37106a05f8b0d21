/** An optional value: a field the data may leave out, a lookup that may find nothing. */
module Options {
  datatype Option<T> = None | Some(value: T)
  {
    function GetOr(default: T): T
    {
      match this
      case Some(v) => v
      case None => default
    }
  }
}
