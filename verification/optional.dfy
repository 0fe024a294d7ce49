/** Swift's optional type `T?`, used wherever the client returns or stores `nil`. */
module Optional {

  datatype Option<+T> = None | Some(value: T) {

    /** `x ?? default` */
    function GetOr(default: T): T
    {
      match this
      case Some(v) => v
      case None => default
    }
  }
}
