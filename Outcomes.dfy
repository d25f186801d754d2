/** Optional values, results and the faults the writer raises. */
module Outcomes {

  datatype Option<+T> = None | Some(value: T)

  /** Why an operation of the writer throws. */
  datatype Fault =
    | EmptyStack                    // java.util.Stack.pop/peek on an empty stack
    | CannotWrite(typeName: string) // "Can't write type <simple name> to JSON"
    | NotEnded                      // "Writer not ended"

  /** The value an operation returns, or the fault it throws. */
  datatype Result<+T> = Ok(value: T) | Err(fault: Fault)

  /** What a callback that returns nothing did: completed, or threw. */
  datatype Status = Completed | Threw(fault: Fault)
}
