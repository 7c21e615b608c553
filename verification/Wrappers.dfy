/** A value that may be missing, shared by the modules. */
module Wrappers {
  datatype Option<+T> = None | Some(value: T) {
    function GetOr(default: T): T {
      if this.Some? then value else default
    }

    predicate IsFailure() { this.None? }

    function PropagateFailure<U>(): Option<U>
      requires this.None?
    {
      None
    }

    function Extract(): T
      requires this.Some?
    {
      value
    }
  }
}
