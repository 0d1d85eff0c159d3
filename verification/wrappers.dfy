/** Optional values: the model's stand-in for Python's None. */
module Wrappers {

  datatype Option<+T> = None | Some(value: T)
  {
    /** The value, or `default` when there is none. */
    function GetOr(default: T): T
    {
      match this
      case Some(v) => v
      case None => default
    }
  }

  /** A text attribute that Python would treat as true: present and non-empty. */
  predicate Declared(o: Option<string>)
  {
    o.Some? && o.value != ""
  }

  /** Python's `a or b` on two optional strings: `a` when it is truthy, otherwise `b`. */
  function OrElse(a: Option<string>, b: Option<string>): (r: Option<string>)
    ensures Declared(r) <==> Declared(a) || Declared(b)
    ensures Declared(a) ==> r == a
    ensures !Declared(a) ==> r == b
  {
    if Declared(a) then a else b
  }
}
