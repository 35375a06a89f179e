/**
 * Small value types shared by every module of the model.
 *
 * Python's `None` becomes `Option.None`; an exception the source raises
 * (a failed `assert`, an attribute looked up on `None`, `list.index` of a
 * missing value, ...) becomes `Result.Fail` carrying the kind of fault.
 */
module Wrappers {

  datatype Option<+T> = None | Some(value: T)

  /** The exceptions the modelled code can raise. */
  datatype Fault =
    | AssertionError      // a failed `assert` in the source: a broken caller contract
    | AttributeError      // an attribute looked up on `None`
    | IndexError          // a list indexed out of range
    | ValueError          // `list.index` of a value that is not in the list
    | TypeError           // iterating over something that is not a collection
    | NotImplementedError // an abstract hook that a subclass must supply
    | ConnectionError     // connecting a handle that is already connected

  datatype Result<+T> = Ok(value: T) | Fail(fault: Fault) {
    /** The value, or `None` for a fault. */
    function ToOption(): (r: Option<T>)
      ensures r.Some? <==> Ok?
      ensures r.Some? ==> r.value == value
    {
      match this
      case Ok(v) => Some(v)
      case Fail(_) => None
    }
  }

  /** Position of the first occurrence of `x` in `s`, like Python's `list.index`. */
  function IndexOf<T(==)>(s: seq<T>, x: T): (r: Result<nat>)
    ensures r.Ok? <==> x in s
    ensures r.Ok? ==> r.value < |s| && s[r.value] == x && x !in s[..r.value]
    ensures r.Fail? ==> r.fault == ValueError
  {
    if |s| == 0 then Fail(ValueError)
    else if s[0] == x then Ok(0)
    else match IndexOf(s[1..], x)
      case Ok(i) =>
        assert s[1..][..i] == s[1..i + 1];
        assert s[..i + 1] == [s[0]] + s[1..i + 1];
        Ok(i + 1)
      case Fail(f) => Fail(f)
  }
}
