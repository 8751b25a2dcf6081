/**
 * The idempotency ledger (`InMemoryIdempotencyStore`): one entry per command
 * id, holding the request hash it was first seen with and how its processing
 * ended. The store is a value; each operation returns the new ledger.
 */
module Idempotency {
  import opened Wrappers
  import opened CommandTypes

  datatype EntryStatus = InProgress | Committed | Failed

  datatype Entry = Entry(
    requestHash: string,
    status: EntryStatus,
    result: Option<DispatchResult>,
    error: Option<DomainError>)

  type Ledger = map<Uuid, Entry>

  /** What `begin` tells the dispatcher to do with a command. */
  datatype IdempotencyState = New | Replay(result: DispatchResult) | Conflict

  /**
   * `begin`: an unseen id is recorded as in progress and reported New. A
   * known id is never modified: a different hash conflicts, a committed
   * entry replays its stored result, and an in-progress or failed entry
   * conflicts.
   */
  function Begin(ledger: Ledger, commandId: Uuid, requestHash: string)
    : (r: (Ledger, DomainResult<IdempotencyState>))
    ensures commandId !in ledger ==>
              r.1 == Ok(New)
              && r.0 == ledger[commandId := Entry(requestHash, InProgress, None, None)]
    ensures commandId in ledger ==> r.0 == ledger && r.1 != Ok(New)
    ensures commandId in ledger && ledger[commandId].requestHash != requestHash ==>
              r.1 == Ok(Conflict)
    ensures commandId in ledger && ledger[commandId].requestHash == requestHash ==>
              (r.1.Ok? && r.1.value.Replay? <==>
                 ledger[commandId].status == Committed && ledger[commandId].result.Some?)
              && (r.1.Ok? && r.1.value.Replay? ==> r.1.value.result == ledger[commandId].result.value)
              && (ledger[commandId].status != Committed ==> r.1 == Ok(Conflict))
    ensures r.1.Err? ==> r.1.error.code == InvariantViolation
  {
    if commandId !in ledger then
      (ledger[commandId := Entry(requestHash, InProgress, None, None)], Ok(New))
    else
      var existing := ledger[commandId];
      if existing.requestHash != requestHash then (ledger, Ok(Conflict))
      else if existing.status == Committed then
        match existing.result
        case None =>
          (ledger, Err(DomainError(InvariantViolation, "Committed idempotency entry is missing result",
                                   Some(JObject([("command_id", JString(commandId))])))))
        case Some(result) => (ledger, Ok(Replay(result)))
      else (ledger, Ok(Conflict))
  }

  /** `commit`: the entry becomes Committed with the result; nothing else changes. */
  function Commit(ledger: Ledger, commandId: Uuid, result: DispatchResult)
    : (r: (Ledger, DomainResult<Unit>))
    ensures commandId !in ledger ==> r.0 == ledger && r.1.Err? && r.1.error.code == NotFound
    ensures commandId in ledger ==>
              r.1 == Ok(Unit)
              && r.0.Keys == ledger.Keys
              && r.0[commandId].status == Committed
              && r.0[commandId].result == Some(result)
              && r.0[commandId].requestHash == ledger[commandId].requestHash
              && r.0[commandId].error == ledger[commandId].error
              && (forall id :: id in ledger && id != commandId ==> r.0[id] == ledger[id])
  {
    if commandId !in ledger then
      (ledger, Err(DomainError(NotFound, "Idempotency entry not found on commit",
                               Some(JObject([("command_id", JString(commandId))])))))
    else
      (ledger[commandId := ledger[commandId].(status := Committed, result := Some(result))], Ok(Unit))
  }

  /** `mark_failed`: the entry becomes Failed with the error; nothing else changes. */
  function MarkFailed(ledger: Ledger, commandId: Uuid, error: DomainError)
    : (r: (Ledger, DomainResult<Unit>))
    ensures commandId !in ledger ==> r.0 == ledger && r.1.Err? && r.1.error.code == NotFound
    ensures commandId in ledger ==>
              r.1 == Ok(Unit)
              && r.0.Keys == ledger.Keys
              && r.0[commandId].status == Failed
              && r.0[commandId].error == Some(error)
              && r.0[commandId].requestHash == ledger[commandId].requestHash
              && r.0[commandId].result == ledger[commandId].result
              && (forall id :: id in ledger && id != commandId ==> r.0[id] == ledger[id])
  {
    if commandId !in ledger then
      (ledger, Err(DomainError(NotFound, "Idempotency entry not found on mark_failed",
                               Some(JObject([("command_id", JString(commandId))])))))
    else
      (ledger[commandId := ledger[commandId].(status := Failed, error := Some(error))], Ok(Unit))
  }

  /** A ledger operation, for reasoning about sequences of calls. */
  datatype LedgerOp =
    | BeginOp(commandId: Uuid, requestHash: string)
    | CommitOp(commandId: Uuid, result: DispatchResult)
    | FailOp(commandId: Uuid, error: DomainError)

  function Apply(ledger: Ledger, op: LedgerOp): Ledger {
    match op
    case BeginOp(id, h) => Begin(ledger, id, h).0
    case CommitOp(id, res) => Commit(ledger, id, res).0
    case FailOp(id, e) => MarkFailed(ledger, id, e).0
  }

  function ApplyAll(ledger: Ledger, ops: seq<LedgerOp>): Ledger
    decreases |ops|
  {
    if |ops| == 0 then ledger else ApplyAll(Apply(ledger, ops[0]), ops[1..])
  }

  /**
   * The ledger never forgets an id, and the request hash an id was first seen
   * with never changes, whatever calls follow.
   */
  lemma {:induction false} LedgerRemembers(ledger: Ledger, ops: seq<LedgerOp>, id: Uuid)
    requires id in ledger
    ensures id in ApplyAll(ledger, ops)
    ensures ApplyAll(ledger, ops)[id].requestHash == ledger[id].requestHash
    decreases |ops|
  {
    if |ops| > 0 {
      LedgerRemembers(Apply(ledger, ops[0]), ops[1..], id);
    }
  }

  /** Once an id is in the ledger, `begin` never again reports it New. */
  lemma NeverNewTwice(ledger: Ledger, ops: seq<LedgerOp>, id: Uuid, requestHash: string)
    requires id in ledger
    ensures Begin(ApplyAll(ledger, ops), id, requestHash).1 != Ok(New)
  {
    LedgerRemembers(ledger, ops, id);
  }

  /** A command still being processed conflicts with any second attempt. */
  lemma InFlightConflicts(ledger: Ledger, id: Uuid, h1: string, h2: string)
    requires id !in ledger
    ensures Begin(Begin(ledger, id, h1).0, id, h2).1 == Ok(Conflict)
  {
  }

  /** After a commit, the same request replays the committed result; another request conflicts. */
  lemma CommitThenReplay(ledger: Ledger, id: Uuid, h: string, h2: string, result: DispatchResult)
    requires id !in ledger
    ensures var l := Commit(Begin(ledger, id, h).0, id, result).0;
            Begin(l, id, h).1 == Ok(Replay(result))
            && (h2 != h ==> Begin(l, id, h2).1 == Ok(Conflict))
  {
  }

  /** After a failure, every later attempt with that id conflicts, whatever its hash. */
  lemma FailedThenConflict(ledger: Ledger, id: Uuid, h: string, h2: string, e: DomainError)
    requires id !in ledger
    ensures Begin(MarkFailed(Begin(ledger, id, h).0, id, e).0, id, h2).1 == Ok(Conflict)
  {
  }
}
