/** Small value wrappers shared by every module: an optional value, a value-or-error
    result, and a Go slice, which unlike a Dafny sequence can be nil. */
module Wrappers {

  datatype Option<+T> = None | Some(value: T)

  datatype Result<+R, +E> = Success(value: R) | Failure(error: E)

  /** A Go slice: `Nil` is the nil slice, `Of(items)` a non-nil one (possibly empty). */
  datatype Slice<+T> = Nil | Of(items: seq<T>) {
    /** What ranging over the slice visits: nothing for nil. */
    function Items(): seq<T> {
      if Nil? then [] else items
    }
  }

  /** The elements of a sequence, as a set. */
  function Elements<T>(s: seq<T>): set<T> {
    set x | x in s
  }

  function Last<T>(s: seq<T>): T
    requires |s| > 0
  {
    s[|s| - 1]
  }
}
