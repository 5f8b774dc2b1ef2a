/** The optional value used wherever the scripts read an attribute that may be absent or unparsable. */
module Wrappers {

  datatype Option<+T> = None | Some(value: T) {

    /** The value when present, the given default otherwise. */
    function GetOr(default: T): T {
      match this
      case Some(v) => v
      case None => default
    }
  }

  /**
   * `parseInt(attr) || fallback`: an attribute that does not parse (NaN) or
   * parses to 0 is falsy and gives way to the fallback.
   */
  function IntOr(attr: Option<int>, fallback: int): (n: int)
    ensures attr == None || attr == Some(0) ==> n == fallback
    ensures attr.Some? && attr.value != 0 ==> n == attr.value
  {
    match attr
    case Some(v) => if v != 0 then v else fallback
    case None => fallback
  }
}
