/** Failure values of the converter.  A Python exception that aborts the run
    becomes an `Err`; a value that may be missing becomes an `Option`. */
module Outcomes {

  datatype Option<+T> = None | Some(value: T) {
    function GetOr(default: T): T {
      match this
      case Some(v) => v
      case None => default
    }
  }

  /** The exceptions the converter can raise on its inputs. */
  datatype Error =
    | KeyError(key: string)           // a missing dictionary key (row column, sector, merge key)
    | IndexError(field: string)       // a string indexed past its end (a short UWP or PBG code)
    | ValueError(text: string)        // `int()` given text that is not a decimal integer
    | NotInOrder(fields: set<string>) // `order.index` given fields outside the canonical list

  datatype Result<+T> = Ok(value: T) | Err(error: Error) {
    predicate IsFailure() { Err? }

    function PropagateFailure<U>(): Result<U>
      requires Err?
    {
      Err(error)
    }

    function Extract(): T
      requires Ok?
    {
      value
    }
  }
}
