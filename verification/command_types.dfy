/**
 * The shared vocabulary of the command layer: session statuses, the small
 * payload enums, events, dispatch results, domain errors and handler outcomes.
 */
module CommandTypes {
  import opened Wrappers

  /** The canonical text of a UUID; ids are compared as values only. */
  type Uuid = string

  /** An instant on the UTC clock; the clock itself is an input of the model. */
  type Timestamp = int

  /** A JSON value, as carried by payload parameters, deltas and event data. */
  datatype Json =
    | JNull
    | JBool(b: bool)
    | JNumber(n: int)
    | JString(s: string)
    | JArray(items: seq<Json>)
    | JObject(fields: seq<(string, Json)>)

  datatype SessionStatus = Created | Processing | Review | Validated | Exported | Locked

  /** The variant name, as `{:?}` formats it. */
  function StatusDebugName(s: SessionStatus): string {
    match s
    case Created => "Created"
    case Processing => "Processing"
    case Review => "Review"
    case Validated => "Validated"
    case Exported => "Exported"
    case Locked => "Locked"
  }

  /** The serialised (snake_case) name. */
  function StatusJsonName(s: SessionStatus): string {
    match s
    case Created => "created"
    case Processing => "processing"
    case Review => "review"
    case Validated => "validated"
    case Exported => "exported"
    case Locked => "locked"
  }

  datatype SourceType = Manual | Anchor | Zone
  datatype MatchType = Exact | Regex
  datatype DictionaryScope = Global | FieldKey | Vendor | Name
  datatype ExportFormat = CsvBundle | Xlsx | JsonFile
  datatype ValidationRuleScope = All | ChangedOnly

  datatype SessionStatusTransition = SessionStatusTransition(from: SessionStatus, to: SessionStatus)

  datatype EventEnvelope = EventEnvelope(
    eventId: Uuid,
    causedBy: Uuid,
    eventType: string,
    timestamp: Timestamp,
    data: Json)

  datatype DispatchResult = DispatchResult(
    commandId: Uuid,
    eventIds: seq<Uuid>,
    sessionStatus: Option<SessionStatus>,
    idempotentReplay: bool)

  datatype ErrorCode =
    | SessionLocked
    | InvalidStateTransition
    | CommandNotAllowedInState
    | IdempotencyConflict
    | PreconditionFailed
    | InvariantViolation
    | NotFound
    | Internal

  datatype DomainError = DomainError(code: ErrorCode, message: string, details: Option<Json>)

  type DomainResult<T> = Result<T, DomainError>

  /** A result with no value: Rust's `DomainResult<()>`. */
  datatype Unit = Unit

  datatype StateDelta = StateDelta(summary: string, data: Json)

  datatype ReviewAction = ReviewAction(kind: string, payload: Json)

  datatype ValidationTrigger = NoTrigger | AsyncTrigger | SyncTrigger

  /** What a handler returns for an accepted command. */
  datatype CommandOutcome = CommandOutcome(
    stateDelta: StateDelta,
    transition: Option<SessionStatusTransition>,
    reviewActions: seq<ReviewAction>,
    validationTrigger: ValidationTrigger)

  datatype CommandContext = CommandContext(now: Timestamp, actor: string)
}
