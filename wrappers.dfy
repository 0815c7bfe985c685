/** Failure-carrying results and the exceptions the pipeline can raise. */
module Wrappers {

  datatype Option<+T> = None | Some(value: T)

  /** The exceptions of the Python code, by kind. */
  datatype Error =
    /** `validate_cardinality` and the inline arity checks: the message names
        how many parameters arrived, the atom's name, and how many it expects;
        `action` is the verb phrase of the message ("draw" or
        "extract coords for"). */
    | CardinalityError(received: nat, atomName: string, expected: nat, action: string)
    /** the guard of the answer-set extractors */
    | UnsatisfiableInput
    /** arithmetic with a string operand (`"" + 1.0`, `sum(["", 3])`) */
    | TypeError
    /** `sum(xs) / len(xs)` on an empty list */
    | ZeroDivision
    /** `capture.groups()` when `search` found nothing (`None` has no groups) */
    | NoMatch
    /** `matches[3]` when `findall` found fewer than four numbers */
    | IndexError

  datatype Result<+T> = Success(value: T) | Failure(error: Error)

  /** Completion of a statement sequence that returns nothing: it either ran
      to the end or raised. */
  datatype Outcome = Pass | Fail(error: Error)
}
