/** Status values returned by the graph-rewriting routines. Each failure
    carries the error code the source returns and a structured reason in
    place of the source's message text. */
module Errors {

  datatype Option<+T> = None | Some(value: T)

  /** The error codes of the source's `Status` values. */
  datatype Code = InvalidArgument | NotFound | Internal

  /** Why an operation failed; one constructor per early return. */
  datatype Reason =
    | EmptyNodeName
    | NegativeOutputIndex(nodeName: string)
    | InvalidShape
    | DuplicateName(kind: string, name: string)
    | ConflictingName(kind: string, name: string)
    | NoFetches
    | FeedNodeNotFound(key: string)
    | TypeInferenceFailed(nodeName: string)
    | InvalidFeedOutputIndex(nodeName: string, index: int)
    | PruneNodeNotFound(nodeName: string)
    | ShardingParseFailed
    | NotMaximalSharding
    | OpNotRegistered(op: string)
    | MissingInput(slot: nat)
    | MissingFuncAttr(attrName: string)
    | WrongAttrType(attrName: string)
    | GradientConflict(funcName: string)
    | NoGradient(funcName: string)
    | InstantiateFailed(funcName: string)
    | UnknownHandle(handle: nat)

  /** The code each reason is reported with. */
  function CodeOf(r: Reason): Code
  {
    match r
    case FeedNodeNotFound(_) => NotFound
    case OpNotRegistered(_) => NotFound
    case MissingFuncAttr(_) => NotFound
    case InstantiateFailed(_) => NotFound
    case UnknownHandle(_) => NotFound
    case MissingInput(_) => NotFound
    case NotMaximalSharding => Internal
    case _ => InvalidArgument
  }

  datatype Status = Ok | Err(reason: Reason) {
    function Code(): Code
      requires Err?
    {
      CodeOf(reason)
    }
  }

  datatype Result<+T> = Success(value: T) | Failure(reason: Reason) {
    function ToStatus(): Status
    {
      match this
      case Success(_) => Ok
      case Failure(r) => Err(r)
    }
  }
}
