/** Values shared by every part of the blog model. */
module Common {

  /** A value that may be missing: an absent JSON field, `undefined` or `null`. */
  datatype Option<+T> = None | Some(value: T) {

    /** `x || fallback` / `x ?? fallback` for a value that is either there or not. */
    function GetOr(default: T): T {
      if Some? then value else default
    }
  }

  /** Document identities. The stores hand them out, one per inserted document;
      comparing two of them with `toString()` is comparing the identities. */
  type ObjectId = nat
}
