/** A value that may be absent: a JavaScript `undefined`/`null`, or a cancelled prompt. */
module Optional {

  datatype Option<+T> = None | Some(value: T) {

    /** The value when present, else the fallback: JavaScript's `x || fallback` on a possibly missing field. */
    function GetOr(fallback: T): T
    {
      match this
      case Some(v) => v
      case None => fallback
    }
  }
}
