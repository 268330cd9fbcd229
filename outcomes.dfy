/** Values shared by every module: optional values, the exceptions the Python code
    can raise, and results that either carry a value or the exception that ended
    the computation. */
module Outcomes {

  datatype Option<T> = None | Some(value: T)

  /** The Python exceptions the modelled code can raise. */
  datatype Fault =
    | IndexError         // subscript past the end of a list or string
    | ValueError         // int(..., 16) of a non-hex text, an invalid datetime
    | TypeError          // arithmetic or int() on None
    | ZeroDivisionError
    | StopIteration      // next(iter(...)) of an empty dict
    | StatisticsError    // statistics.variance of fewer than two samples
    | AttributeError     // a method called on None, an attribute never assigned
    | StructError        // struct.unpack of a buffer of the wrong length

  datatype Result<T> = Ok(value: T) | Err(fault: Fault)

  /** A byte as Python's bytes objects yield it. */
  type byte = x: int | 0 <= x < 256

  /** Python's list.sort order on integers. */
  predicate Sorted(s: seq<int>) {
    forall i, j :: 0 <= i < j < |s| ==> s[i] <= s[j]
  }
}
