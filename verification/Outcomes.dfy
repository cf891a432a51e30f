/** Status values: the source's `Status` (null for Success, else an exception) and
    the CK() macro, which is Dafny's `:-`. */
module Outcomes {

  datatype Error = InverseError | UnknownClass | UnknownAttribute | NoInverse | InverseMismatch

  datatype Status = Success | Failed(error: Error) {
    predicate IsFailure() {
      Failed?
    }

    function PropagateFailure(): Status
      requires Failed?
    {
      this
    }
  }

  datatype Option<+T> = None | Some(value: T)
}
