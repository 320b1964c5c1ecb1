/** Option and Result for the engine's "undefined" values and thrown errors. */
module Wrappers {

  datatype Option<+T> = None | Some(value: T)

  /** Every error the engine throws, one constructor per distinct `throw` site kind. */
  datatype Fault =
    | IncorrectCallbackName      // "Incorrect callback name!"
    | IncorrectFlagName          // "Incorrect flag name!"
    | FunctionExpected           // "Incorrect argument - function expected!" / "Function expected!"
    | RequestNotInQueue          // "Request not in queue!"
    | NoQueueId                  // "No queue id!"
    | QueueAlreadyExists         // "Queue <id> already exists!"
    | QueueDoesNotExist          // "Queue <id> does not exist!"
    | IncorrectQueueParameter    // "Incorrect queue parameter - ..."
    | TrueOrFunctionExpected     // "Incorrect argument - true or function expected!"
    | FunctionOrUndefinedExpected // "Incorrect argument - function or undefined expected!"
    | UnqueuedRequestFailed      // TypeError: the unqueued constructor path reads `undefined.settings`
    | EmptyQueueCanceled         // TypeError: `Queue.cancel` reads `requests[0]` of an empty list

  datatype Result<+T> = Ok(value: T) | Err(fault: Fault)
}
