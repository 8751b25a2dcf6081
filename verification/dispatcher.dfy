/**
 * The dispatch pipeline (`DefaultCommandDispatcher::dispatch`) over the
 * in-memory reference stores. The request hash, the handlers, the event
 * factory, the invariant engine and the clock are parameters; the stores are
 * one immutable value threaded through the pipeline. The unit of work only
 * calls its closure, so whatever a failed step's predecessors wrote stays.
 */
module Dispatcher {
  import opened Wrappers
  import opened CommandTypes
  import opened Commands
  import opened TransitionPolicy
  import opened Idempotency
  import opened EventStore
  import opened CommandRouter

  /**
   * Everything the in-memory bundle stores: the idempotency ledger, the event
   * log, the session statuses (shared by the session reader and the
   * projection writer) and the projection writer's three append-only lists.
   */
  datatype Store = Store(
    ledger: Ledger,
    events: seq<EventEnvelope>,
    statuses: map<Uuid, SessionStatus>,
    deltas: seq<Json>,
    reviewActions: seq<ReviewAction>,
    triggers: seq<ValidationTrigger>)

  /** The dispatcher's collaborators that are outside the model. */
  datatype Deps<!H> = Deps(
    handlers: seq<H>,
    canHandle: (H, string) -> bool,
    handle: (H, CommandContext, AnyCommand) -> DomainResult<CommandOutcome>,
    requestHash: AnyCommand -> DomainResult<string>,
    buildEvents: (AnyCommand, CommandOutcome) -> DomainResult<seq<EventEnvelope>>,
    invariants: (Store, Option<Uuid>) -> DomainResult<Unit>,
    now: Timestamp)

  function EventIds(events: seq<EventEnvelope>): (ids: seq<Uuid>)
    ensures |ids| == |events|
    ensures forall i :: 0 <= i < |events| ==> ids[i] == events[i].eventId
  {
    if |events| == 0 then [] else [events[0].eventId] + EventIds(events[1..])
  }

  /** `choose_status`: the transition target if there is one, else the current status. */
  function ChooseStatus(current: Option<SessionStatus>, candidate: Option<SessionStatus>)
    : (r: Option<SessionStatus>)
    ensures r.Some? <==> current.Some? || candidate.Some?
    ensures candidate.Some? ==> r == candidate
    ensures candidate.None? ==> r == current
  {
    if candidate.Some? then candidate else current
  }

  /**
   * The status read and allow-list check: session-less commands skip both; a
   * session-scoped command needs a stored status that allows its type.
   */
  function CheckSession(statuses: map<Uuid, SessionStatus>, cmd: AnyCommand)
    : (r: DomainResult<Option<SessionStatus>>)
    ensures SessionId(cmd).None? ==> r == Ok(None)
    ensures SessionId(cmd).Some? && SessionId(cmd).value !in statuses ==>
              r.Err? && r.error.code == NotFound
    ensures SessionId(cmd).Some? && SessionId(cmd).value in statuses ==>
              var status := statuses[SessionId(cmd).value];
              (r.Ok? <==> AssertAllowed(CommandType(cmd), status).Ok?)
              && (r.Ok? ==> r.value == Some(status))
              && (r.Err? ==> r.error == AssertAllowed(CommandType(cmd), status).error)
  {
    match SessionId(cmd)
    case None => Ok(None)
    case Some(sid) =>
      if sid !in statuses then
        Err(DomainError(NotFound, "Session status not found",
                        Some(JObject([("session_id", JString(sid))]))))
      else
        var status := statuses[sid];
        match AssertAllowed(CommandType(cmd), status)
        case Err(e) => Err(e)
        case Ok(_) => Ok(Some(status))
  }

  /** The transition check runs only when both a current status and a transition exist. */
  function CheckTransition(current: Option<SessionStatus>, transition: Option<SessionStatusTransition>)
    : (r: DomainResult<Unit>)
    ensures current.Some? && transition.Some? ==> r == AssertTransition(current.value, transition.value.to)
    ensures current.None? || transition.None? ==> r == Ok(Unit)
  {
    if current.Some? && transition.Some? then AssertTransition(current.value, transition.value.to)
    else Ok(Unit)
  }

  /**
   * The four projection writes, in order: the delta, the review actions, the
   * validation trigger, and the new status for a session-scoped transition.
   */
  function ApplyProjections(store: Store, sessionId: Option<Uuid>, outcome: CommandOutcome)
    : (r: Store)
    ensures r.ledger == store.ledger && r.events == store.events
    ensures r.deltas == store.deltas + [outcome.stateDelta.data]
    ensures r.reviewActions == store.reviewActions + outcome.reviewActions
    ensures r.triggers == store.triggers + [outcome.validationTrigger]
    ensures sessionId.Some? && outcome.transition.Some? ==>
              r.statuses == store.statuses[sessionId.value := outcome.transition.value.to]
    ensures sessionId.None? || outcome.transition.None? ==> r.statuses == store.statuses
  {
    var s := store.(deltas := store.deltas + [outcome.stateDelta.data],
                    reviewActions := store.reviewActions + outcome.reviewActions,
                    triggers := store.triggers + [outcome.validationTrigger]);
    if sessionId.Some? && outcome.transition.Some? then
      s.(statuses := s.statuses[sessionId.value := outcome.transition.value.to])
    else s
  }

  function NextStatus(outcome: CommandOutcome): Option<SessionStatus> {
    if outcome.transition.Some? then Some(outcome.transition.value.to) else None
  }

  /**
   * The transaction after the handler returned `outcome`: transition check,
   * projections, event building, append and the invariant check.
   */
  function Finish<H>(deps: Deps<H>, store: Store, cmd: AnyCommand, current: Option<SessionStatus>,
                     outcome: CommandOutcome)
    : (r: (Store, DomainResult<DispatchResult>))
    ensures r.0.ledger == store.ledger
    ensures |store.events| <= |r.0.events| && r.0.events[..|store.events|] == store.events
    ensures r.1.Ok? ==>
              r.1.value.commandId == CommandId(cmd)
              && |r.1.value.eventIds| >= 1
              && r.1.value.eventIds == EventIds(r.0.events[|store.events|..])
              && !r.1.value.idempotentReplay
              && r.1.value.sessionStatus == ChooseStatus(current, NextStatus(outcome))
              && CheckTransition(current, outcome.transition).Ok?
              && r.0.statuses == ApplyProjections(store, SessionId(cmd), outcome).statuses
  {
    match CheckTransition(current, outcome.transition)
    case Err(e) => (store, Err(e))
    case Ok(_) =>
      var projected := ApplyProjections(store, SessionId(cmd), outcome);
      match deps.buildEvents(cmd, outcome)
      case Err(e) => (projected, Err(e))
      case Ok(events) =>
        if |events| == 0 then
          (projected, Err(DomainError(InvariantViolation, "Accepted command must emit at least one event",
                                      Some(JObject([("command_type", JString(CommandType(cmd)))])))))
        else
          var appended := projected.(events := Append(projected.events, events));
          assert appended.events[|store.events|..] == events;
          match deps.invariants(appended, SessionId(cmd))
          case Err(e) => (appended, Err(e))
          case Ok(_) =>
            (appended, Ok(DispatchResult(CommandId(cmd), EventIds(events),
                                         ChooseStatus(current, NextStatus(outcome)), false)))
  }

  /**
   * The body of the transaction: session check, handler lookup, handling,
   * then the rest. It never touches the ledger, and the event log only grows.
   */
  function RunTx<H>(deps: Deps<H>, store: Store, cmd: AnyCommand)
    : (r: (Store, DomainResult<DispatchResult>))
    ensures r.0.ledger == store.ledger
    ensures |store.events| <= |r.0.events| && r.0.events[..|store.events|] == store.events
    ensures r.1.Ok? ==>
              r.1.value.commandId == CommandId(cmd)
              && |r.1.value.eventIds| >= 1
              && r.1.value.eventIds == EventIds(r.0.events[|store.events|..])
              && !r.1.value.idempotentReplay
    ensures CheckSession(store.statuses, cmd).Err? ==>
              r == (store, Err(CheckSession(store.statuses, cmd).error))
    ensures CheckSession(store.statuses, cmd).Ok?
            && FindFirst(deps.handlers, h => deps.canHandle(h, CommandType(cmd))).None? ==>
              r.0 == store && r.1.Err? && r.1.error.code == NotFound
  {
    var commandType := CommandType(cmd);
    match CheckSession(store.statuses, cmd)
    case Err(e) => (store, Err(e))
    case Ok(current) =>
      match FindFirst(deps.handlers, h => deps.canHandle(h, commandType))
      case None =>
        (store, Err(DomainError(NotFound, "No handler registered for command type " + commandType, None)))
      case Some(i) =>
        match deps.handle(deps.handlers[i], CommandContext(deps.now, Actor(cmd)), cmd)
        case Err(e) => (store, Err(e))
        case Ok(outcome) => Finish(deps, store, cmd, current, outcome)
  }

  /**
   * A session-scoped transaction that succeeds was allowed in the session's
   * prior status, moved it along a legal edge (or kept it), and stored the
   * status it reports; a session-less one leaves the statuses alone.
   */
  lemma RunTxStatuses<H>(deps: Deps<H>, store: Store, cmd: AnyCommand)
    ensures var r := RunTx(deps, store, cmd);
            r.1.Ok? && SessionId(cmd).Some? ==>
              var sid := SessionId(cmd).value;
              sid in store.statuses
              && AssertAllowed(CommandType(cmd), store.statuses[sid]).Ok?
              && r.1.value.sessionStatus.Some?
              && AssertTransition(store.statuses[sid], r.1.value.sessionStatus.value).Ok?
              && r.0.statuses == store.statuses[sid := r.1.value.sessionStatus.value]
    ensures var r := RunTx(deps, store, cmd);
            r.1.Ok? && SessionId(cmd).None? ==> r.0.statuses == store.statuses
  {
    var r := RunTx(deps, store, cmd);
    if r.1.Ok? {
      var current := CheckSession(store.statuses, cmd).value;
      var i := FindFirst(deps.handlers, h => deps.canHandle(h, CommandType(cmd))).value;
      var outcome := deps.handle(deps.handlers[i], CommandContext(deps.now, Actor(cmd)), cmd).value;
      assert r == Finish(deps, store, cmd, current, outcome);
      if SessionId(cmd).Some? {
        var sid := SessionId(cmd).value;
        assert current == Some(store.statuses[sid]);
        if outcome.transition.None? {
          SelfTransitionAllowed(store.statuses[sid]);
        }
      }
    }
  }

  function ConflictError(cmd: AnyCommand): DomainError {
    DomainError(IdempotencyConflict, "Command ID already used with different payload",
                Some(JObject([("command_id", JString(CommandId(cmd)))])))
  }

  /**
   * `dispatch`: hash the command, consult the ledger, run the transaction,
   * then commit the result or mark the id failed. The result of the
   * transaction is what the caller gets; an error from `mark_failed` is
   * dropped, one from `commit` is returned.
   */
  function Dispatch<H>(deps: Deps<H>, store: Store, cmd: AnyCommand)
    : (r: (Store, DomainResult<DispatchResult>))
    ensures |store.events| <= |r.0.events| && r.0.events[..|store.events|] == store.events
    ensures store.ledger.Keys <= r.0.ledger.Keys <= store.ledger.Keys + {CommandId(cmd)}
    ensures forall id :: id in store.ledger && id != CommandId(cmd) ==> r.0.ledger[id] == store.ledger[id]
  {
    var id := CommandId(cmd);
    match deps.requestHash(cmd)
    case Err(e) => (store, Err(e))
    case Ok(hash) =>
      var (ledger, state) := Begin(store.ledger, id, hash);
      match state
      case Err(e) => (store.(ledger := ledger), Err(e))
      case Ok(Replay(existing)) => (store.(ledger := ledger), Ok(existing))
      case Ok(Conflict) => (store.(ledger := ledger), Err(ConflictError(cmd)))
      case Ok(New) =>
        var (after, result) := RunTx(deps, store.(ledger := ledger), cmd);
        match result
        case Ok(committed) =>
          var (l, c) := Commit(after.ledger, id, committed);
          (match c
           case Ok(_) => (after.(ledger := l), Ok(committed))
           case Err(ce) => (after.(ledger := l), Err(ce)))
        case Err(e) =>
          (after.(ledger := MarkFailed(after.ledger, id, e).0), Err(e))
  }

  /** The request is fresh: it hashes, and its id has never been seen. */
  predicate Fresh<H>(deps: Deps<H>, store: Store, cmd: AnyCommand) {
    deps.requestHash(cmd).Ok? && CommandId(cmd) !in store.ledger
  }

  /** A hash failure stops dispatch before the ledger is touched. */
  lemma HashFailureHasNoEffect<H>(deps: Deps<H>, store: Store, cmd: AnyCommand)
    requires deps.requestHash(cmd).Err?
    ensures Dispatch(deps, store, cmd) == (store, Err(deps.requestHash(cmd).error))
  {
  }

  /** A committed request replays its stored result verbatim, and nothing changes. */
  lemma ReplayIsVerbatim<H>(deps: Deps<H>, store: Store, cmd: AnyCommand)
    requires deps.requestHash(cmd).Ok?
    requires CommandId(cmd) in store.ledger
    requires store.ledger[CommandId(cmd)].requestHash == deps.requestHash(cmd).value
    requires store.ledger[CommandId(cmd)].status == Committed
    requires store.ledger[CommandId(cmd)].result.Some?
    ensures Dispatch(deps, store, cmd) == (store, Ok(store.ledger[CommandId(cmd)].result.value))
  {
  }

  /**
   * A known id with another payload, or one still in progress or failed,
   * yields IdempotencyConflict and changes nothing. In particular a failed
   * command id is never run again.
   */
  lemma ConflictHasNoEffect<H>(deps: Deps<H>, store: Store, cmd: AnyCommand)
    requires deps.requestHash(cmd).Ok?
    requires CommandId(cmd) in store.ledger
    requires store.ledger[CommandId(cmd)].requestHash != deps.requestHash(cmd).value
             || store.ledger[CommandId(cmd)].status != Committed
    ensures Dispatch(deps, store, cmd) == (store, Err(ConflictError(cmd)))
  {
  }

  /** Every Ok answer to a fresh request describes the events it just appended. */
  lemma FreshOkResult<H>(deps: Deps<H>, store: Store, cmd: AnyCommand)
    requires Fresh(deps, store, cmd)
    ensures var (after, res) := Dispatch(deps, store, cmd);
            res.Ok? ==>
              res.value.commandId == CommandId(cmd)
              && |res.value.eventIds| >= 1
              && res.value.eventIds == EventIds(after.events[|store.events|..])
              && !res.value.idempotentReplay
              && after.ledger[CommandId(cmd)].status == Committed
              && after.ledger[CommandId(cmd)].result == Some(res.value)
  {
    var hash := deps.requestHash(cmd).value;
    var begun := store.(ledger := Begin(store.ledger, CommandId(cmd), hash).0);
    var (after, res) := RunTx(deps, begun, cmd);
    assert begun.events == store.events;
  }

  /** A fresh request that fails leaves its id Failed with the returned error. */
  lemma FreshErrMarksFailed<H>(deps: Deps<H>, store: Store, cmd: AnyCommand)
    requires Fresh(deps, store, cmd)
    ensures var (after, res) := Dispatch(deps, store, cmd);
            res.Err? ==>
              CommandId(cmd) in after.ledger
              && after.ledger[CommandId(cmd)].status == Failed
              && after.ledger[CommandId(cmd)].error == Some(res.error)
              && after.ledger[CommandId(cmd)].requestHash == deps.requestHash(cmd).value
  {
  }

  /**
   * For a fresh session-scoped command, the status is read and the allow-list
   * consulted before any handler is looked up; a failure there is returned
   * and only the ledger changes.
   */
  lemma SessionCheckedFirst<H>(deps: Deps<H>, store: Store, cmd: AnyCommand)
    requires Fresh(deps, store, cmd)
    requires CheckSession(store.statuses, cmd).Err?
    ensures var (after, res) := Dispatch(deps, store, cmd);
            res == Err(CheckSession(store.statuses, cmd).error)
            && after.(ledger := store.ledger) == store
  {
  }

  /** With no handler for the type, a fresh command fails with NotFound and only the ledger changes. */
  lemma NoHandlerIsNotFound<H>(deps: Deps<H>, store: Store, cmd: AnyCommand)
    requires Fresh(deps, store, cmd)
    requires CheckSession(store.statuses, cmd).Ok?
    requires forall i :: 0 <= i < |deps.handlers| ==> !deps.canHandle(deps.handlers[i], CommandType(cmd))
    ensures var (after, res) := Dispatch(deps, store, cmd);
            res.Err? && res.error.code == NotFound && after.(ledger := store.ledger) == store
  {
    assert FindFirst(deps.handlers, h => deps.canHandle(h, CommandType(cmd))).None?;
  }

  /**
   * A fresh session-scoped command that succeeds was allowed in the session's
   * prior status, moved it along a legal edge (or kept it), and the reported
   * status is the one now stored.
   */
  lemma SessionOkFollowsPolicy<H>(deps: Deps<H>, store: Store, cmd: AnyCommand)
    requires Fresh(deps, store, cmd)
    requires SessionId(cmd).Some?
    ensures var (after, res) := Dispatch(deps, store, cmd);
            var sid := SessionId(cmd).value;
            res.Ok? ==>
              sid in store.statuses
              && AssertAllowed(CommandType(cmd), store.statuses[sid]).Ok?
              && res.value.sessionStatus.Some?
              && AssertTransition(store.statuses[sid], res.value.sessionStatus.value).Ok?
              && after.statuses == store.statuses[sid := res.value.sessionStatus.value]
  {
    var hash := deps.requestHash(cmd).value;
    var begun := store.(ledger := Begin(store.ledger, CommandId(cmd), hash).0);
    assert begun.statuses == store.statuses;
    RunTxStatuses(deps, begun, cmd);
  }

  /** A locked session rejects every mutating command with SessionLocked and writes nothing but the ledger. */
  lemma LockedSessionRejectsMutation<H>(deps: Deps<H>, store: Store, cmd: AnyCommand)
    requires Fresh(deps, store, cmd)
    requires SessionId(cmd).Some? && SessionId(cmd).value in store.statuses
    requires store.statuses[SessionId(cmd).value] == Locked
    requires IsMutating(CommandType(cmd))
    ensures var (after, res) := Dispatch(deps, store, cmd);
            res.Err? && res.error.code == SessionLocked && after.(ledger := store.ledger) == store
  {
    SessionCheckedFirst(deps, store, cmd);
  }

  /**
   * Writes are not rolled back. Once the handler's outcome passed the
   * transition check, its projections stay even when no event is produced,
   * and its events stay in the log even when the invariant check then fails.
   */
  lemma NoRollback<H>(deps: Deps<H>, store: Store, cmd: AnyCommand, outcome: CommandOutcome)
    requires Fresh(deps, store, cmd)
    requires CheckSession(store.statuses, cmd).Ok?
    requires FindFirst(deps.handlers, h => deps.canHandle(h, CommandType(cmd))).Some?
    requires deps.handle(deps.handlers[FindFirst(deps.handlers, h => deps.canHandle(h, CommandType(cmd))).value],
                         CommandContext(deps.now, Actor(cmd)), cmd) == Ok(outcome)
    requires CheckTransition(CheckSession(store.statuses, cmd).value, outcome.transition).Ok?
    requires deps.buildEvents(cmd, outcome).Ok?
    ensures var (after, res) := Dispatch(deps, store, cmd);
            after.deltas == store.deltas + [outcome.stateDelta.data]
            && after.reviewActions == store.reviewActions + outcome.reviewActions
            && after.triggers == store.triggers + [outcome.validationTrigger]
            && after.events == store.events + deps.buildEvents(cmd, outcome).value
    ensures deps.buildEvents(cmd, outcome).value == [] ==>
              var res := Dispatch(deps, store, cmd).1;
              res.Err? && res.error.code == InvariantViolation
  {
    var id := CommandId(cmd);
    var begun := store.(ledger := Begin(store.ledger, id, deps.requestHash(cmd).value).0);
    var current := CheckSession(store.statuses, cmd).value;
    assert RunTx(deps, begun, cmd) == Finish(deps, begun, cmd, current, outcome);
    FinishKeepsWrites(deps, begun, cmd, current, outcome);
  }

  /** Past the transition check, the projections and the built events are written whatever follows. */
  lemma FinishKeepsWrites<H>(deps: Deps<H>, store: Store, cmd: AnyCommand, current: Option<SessionStatus>,
                             outcome: CommandOutcome)
    requires CheckTransition(current, outcome.transition).Ok?
    requires deps.buildEvents(cmd, outcome).Ok?
    ensures var after := Finish(deps, store, cmd, current, outcome).0;
            after.deltas == store.deltas + [outcome.stateDelta.data]
            && after.reviewActions == store.reviewActions + outcome.reviewActions
            && after.triggers == store.triggers + [outcome.validationTrigger]
            && after.events == store.events + deps.buildEvents(cmd, outcome).value
    ensures deps.buildEvents(cmd, outcome).value == [] ==>
              var res := Finish(deps, store, cmd, current, outcome).1;
              res.Err? && res.error.code == InvariantViolation
  {
  }

  /**
   * One entry of a good ledger: a committed entry holds the result of its own
   * command, with at least one event, and a failed entry holds its error.
   */
  predicate GoodEntry(id: Uuid, e: Entry) {
    && (e.status == Committed ==>
          e.result.Some? && e.result.value.commandId == id && |e.result.value.eventIds| >= 1)
    && (e.status == Failed ==> e.error.Some?)
  }

  /** The ledger invariant: every entry is good. */
  predicate GoodLedger(ledger: Ledger) {
    forall id :: id in ledger ==> GoodEntry(id, ledger[id])
  }

  /**
   * Dispatch keeps the ledger invariant, and from a good ledger every Ok
   * answer (fresh or replayed) names its command and at least one event.
   */
  lemma DispatchKeepsGoodLedger<H>(deps: Deps<H>, store: Store, cmd: AnyCommand)
    requires GoodLedger(store.ledger)
    ensures GoodLedger(Dispatch(deps, store, cmd).0.ledger)
    ensures var res := Dispatch(deps, store, cmd).1;
            res.Ok? ==> res.value.commandId == CommandId(cmd) && |res.value.eventIds| >= 1
  {
    var (after, res) := Dispatch(deps, store, cmd);
    var cid := CommandId(cmd);
    OwnEntryStaysGood(deps, store, cmd);
    forall id | id in after.ledger ensures GoodEntry(id, after.ledger[id]) {
      if id != cid {
        assert after.ledger[id] == store.ledger[id];
      }
    }
  }

  /** The dispatched command's own entry is good afterwards, and an Ok answer names it. */
  lemma OwnEntryStaysGood<H>(deps: Deps<H>, store: Store, cmd: AnyCommand)
    requires GoodLedger(store.ledger)
    ensures var (after, res) := Dispatch(deps, store, cmd);
            && (CommandId(cmd) in after.ledger ==> GoodEntry(CommandId(cmd), after.ledger[CommandId(cmd)]))
            && (res.Ok? ==> res.value.commandId == CommandId(cmd) && |res.value.eventIds| >= 1)
  {
    var (after, res) := Dispatch(deps, store, cmd);
    var cid := CommandId(cmd);
    if Fresh(deps, store, cmd) {
      FreshOkResult(deps, store, cmd);
      FreshErrMarksFailed(deps, store, cmd);
    } else if deps.requestHash(cmd).Ok? {
      assert after.ledger == store.ledger;
      if res.Ok? {
        assert GoodEntry(cid, store.ledger[cid]);
      }
    }
  }

  /** Dispatching a sequence of commands, threading the store through. */
  function DispatchAll<H>(deps: Deps<H>, store: Store, cmds: seq<AnyCommand>): Store
    decreases |cmds|
  {
    if |cmds| == 0 then store else DispatchAll(deps, Dispatch(deps, store, cmds[0]).0, cmds[1..])
  }

  /**
   * Over any run of dispatches the event log is append-only and a failed
   * command id stays failed: its later dispatches are conflicts.
   */
  lemma {:induction false} FailedStaysFailed<H>(deps: Deps<H>, store: Store, cmds: seq<AnyCommand>, id: Uuid)
    requires id in store.ledger && store.ledger[id].status == Failed
    ensures id in DispatchAll(deps, store, cmds).ledger
    ensures DispatchAll(deps, store, cmds).ledger[id].status == Failed
    ensures var after := DispatchAll(deps, store, cmds);
            |store.events| <= |after.events| && after.events[..|store.events|] == store.events
    decreases |cmds|
  {
    if |cmds| > 0 {
      var next := Dispatch(deps, store, cmds[0]).0;
      if CommandId(cmds[0]) == id && deps.requestHash(cmds[0]).Ok? {
        ConflictHasNoEffect(deps, store, cmds[0]);
      }
      FailedStaysFailed(deps, next, cmds[1..], id);
      var after := DispatchAll(deps, next, cmds[1..]);
      assert after.events[..|store.events|] == after.events[..|next.events|][..|store.events|];
    }
  }
}
