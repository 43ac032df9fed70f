/** Values shared by every part of the model. */
module Types {
  datatype Option<+T> = None | Some(value: T)

  datatype Result<+T, +E> = Ok(value: T) | Err(error: E)

  /** Thread, identity and event ids are opaque text. */
  type Id = string

  /** A run row's id is its position in the `runs` table, which models fresh ids. */
  type RunId = nat

  datatype Kind =
    | Message
    | Reasoning
    | ToolCall
    | ToolResult
    | ThreadChange          // every `thread.*` event
    | RunStarted
    | RunCompleted
    | RunFailed
    | RunCancelled

  predicate IsTerminal(k: Kind) {
    k.RunCompleted? || k.RunFailed? || k.RunCancelled?
  }

  /** The kinds a handler can yield. */
  predicate IsHandlerKind(k: Kind) {
    k.Message? || k.Reasoning? || k.ToolCall? || k.ToolResult?
  }

  /** `streamed` marks an event that a stream publishes when it closes. */
  datatype Event = Event(
    id: Id,
    createdAt: int,
    thread: Id,
    run: Option<RunId>,
    author: Id,
    recipients: Option<seq<Id>>,
    kind: Kind,
    text: string,
    streamed: bool)
}
