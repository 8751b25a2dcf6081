/**
 * The session-status state machine: which command types each status accepts
 * (`MatrixTransitionPolicy`), which status changes are legal, and the
 * locked-session guard that runs before the allow-list.
 */
module TransitionPolicy {
  import opened Wrappers
  import opened CommandTypes
  import opened Commands

  /** Command types that never mutate a session; everything else does. */
  const NonMutating: set<string> := {
    "PinSession", "CreateCorrectionSession", "AddAnchorRule", "DisableAnchorRule",
    "AddDictionaryRule", "DisableDictionaryRule"}

  /** The per-status allow-list of command types. */
  function AllowedIn(status: SessionStatus): set<string> {
    match status
    case Created => {
      "ImportDocument", "PinSession", "AddAnchorRule", "DisableAnchorRule",
      "AddDictionaryRule", "DisableDictionaryRule"}
    case Processing => {
      "PinSession", "ImportDocument", "ConfirmDuplicate", "ApplyPreprocessing",
      "ReprocessDocument", "RunExtraction", "ReRunExtraction", "AssignFieldValue", "LockField",
      "AddItemRow", "DeleteItemRow", "AssignItemValue", "LockItemRow", "AddExtraRow",
      "AssignExtraValue", "ResolveReviewTask", "RunValidation", "AddAnchorRule",
      "DisableAnchorRule", "AddDictionaryRule", "DisableDictionaryRule"}
    case Review => {
      "PinSession", "ImportDocument", "ConfirmDuplicate", "ApplyPreprocessing",
      "ReprocessDocument", "RunExtraction", "ReRunExtraction", "AssignFieldValue", "LockField",
      "AddItemRow", "DeleteItemRow", "AssignItemValue", "LockItemRow", "AddExtraRow",
      "AssignExtraValue", "ResolveReviewTask", "SkipReviewTask", "BatchResolveField",
      "RunValidation", "OverrideValidation", "AddAnchorRule", "DisableAnchorRule",
      "AddDictionaryRule", "DisableDictionaryRule"}
    case Validated => {
      "PinSession", "ConfirmDuplicate", "AssignFieldValue", "AddItemRow", "DeleteItemRow",
      "AssignItemValue", "AddExtraRow", "AssignExtraValue", "ResolveReviewTask",
      "RunValidation", "OverrideValidation", "ExportSession", "AddAnchorRule",
      "DisableAnchorRule", "AddDictionaryRule", "DisableDictionaryRule"}
    case Exported => {
      "PinSession", "CreateCorrectionSession", "LockSession", "AddAnchorRule",
      "DisableAnchorRule", "AddDictionaryRule", "DisableDictionaryRule"}
    case Locked => {
      "PinSession", "CreateCorrectionSession", "AddAnchorRule", "DisableAnchorRule",
      "AddDictionaryRule", "DisableDictionaryRule"}
  }

  /** The seven legal status changes between distinct statuses. */
  const LegalTransitions: set<(SessionStatus, SessionStatus)> := {
    (Created, Processing), (Processing, Review), (Review, Processing), (Review, Validated),
    (Validated, Review), (Validated, Exported), (Exported, Locked)}

  /** `is_mutating_session_command`. */
  predicate IsMutating(commandType: string) {
    commandType !in NonMutating
  }

  /**
   * `assert_allowed`: a locked session rejects every mutating command with
   * SessionLocked before the allow-list is consulted; otherwise the command
   * must be on the status's allow-list.
   */
  function AssertAllowed(commandType: string, status: SessionStatus): (r: DomainResult<Unit>)
    ensures status == Locked && IsMutating(commandType) ==> r.Err? && r.error.code == SessionLocked
    ensures !(status == Locked && IsMutating(commandType)) ==>
              (r.Ok? <==> commandType in AllowedIn(status))
    ensures r.Err? ==> r.error.code in {SessionLocked, CommandNotAllowedInState}
    ensures r.Err? && r.error.code == CommandNotAllowedInState ==>
              r.error.details == Some(JObject([("command_type", JString(commandType)),
                                               ("status", JString(StatusJsonName(status)))]))
  {
    if status == Locked && IsMutating(commandType) then
      Err(DomainError(SessionLocked, "Mutating command denied for locked session",
                      Some(JObject([("command_type", JString(commandType))]))))
    else if commandType in AllowedIn(status) then
      Ok(Unit)
    else
      Err(DomainError(CommandNotAllowedInState, "Command not allowed in current session state",
                      Some(JObject([("command_type", JString(commandType)),
                                    ("status", JString(StatusJsonName(status)))]))))
  }

  /** `assert_transition`: staying put is always fine, moving needs a legal edge. */
  function AssertTransition(from: SessionStatus, to: SessionStatus): (r: DomainResult<Unit>)
    ensures r.Ok? <==> from == to || (from, to) in LegalTransitions
    ensures r.Err? ==> r.error.code == InvalidStateTransition
    ensures r.Err? ==> r.error.details == Some(JObject([("from", JString(StatusJsonName(from))),
                                                        ("to", JString(StatusJsonName(to)))]))
  {
    if from == to then Ok(Unit)
    else if (from, to) in LegalTransitions then Ok(Unit)
    else
      Err(DomainError(InvalidStateTransition, "Illegal session status transition",
                      Some(JObject([("from", JString(StatusJsonName(from))),
                                    ("to", JString(StatusJsonName(to)))]))))
  }

  /**
   * Reference definition of the workflow, written edge by edge as the forward
   * pipeline Created → Processing ⇄ Review ⇄ Validated → Exported → Locked.
   */
  predicate WorkflowStep(from: SessionStatus, to: SessionStatus) {
    match from
    case Created => to in {Created, Processing}
    case Processing => to in {Processing, Review}
    case Review => to in {Review, Processing, Validated}
    case Validated => to in {Validated, Review, Exported}
    case Exported => to in {Exported, Locked}
    case Locked => to == Locked
  }

  lemma TransitionMatchesWorkflow(from: SessionStatus, to: SessionStatus)
    ensures AssertTransition(from, to).Ok? <==> WorkflowStep(from, to)
  {
  }

  /** Every status may stay where it is. */
  lemma SelfTransitionAllowed(s: SessionStatus)
    ensures AssertTransition(s, s) == Ok(Unit)
  {
  }

  /** Locked has no way out, and nothing leads back into Created. */
  lemma LockedIsFinalAndCreatedIsInitial(from: SessionStatus, to: SessionStatus)
    ensures from == Locked && AssertTransition(from, to).Ok? ==> to == Locked
    ensures to == Created && AssertTransition(from, to).Ok? ==> from == Created
  {
  }

  /** A path of statuses whose every step passes `assert_transition`. */
  predicate AcceptedPath(path: seq<SessionStatus>) {
    forall i :: 0 <= i < |path| - 1 ==> AssertTransition(path[i], path[i + 1]).Ok?
  }

  /** Once a session is Locked, every accepted path keeps it Locked. */
  lemma {:induction false} LockedForever(path: seq<SessionStatus>, i: nat, j: nat)
    requires AcceptedPath(path)
    requires i <= j < |path|
    requires path[i] == Locked
    ensures path[j] == Locked
    decreases j - i
  {
    if i < j {
      LockedIsFinalAndCreatedIsInitial(path[i], path[i + 1]);
      LockedForever(path, i + 1, j);
    }
  }

  /** Along an accepted path, a session that ever leaves Created never returns to it. */
  lemma {:induction false} CreatedNeverRevisited(path: seq<SessionStatus>, i: nat, j: nat)
    requires AcceptedPath(path)
    requires i <= j < |path|
    requires path[i] != Created
    ensures path[j] != Created
    decreases j - i
  {
    if i < j {
      LockedIsFinalAndCreatedIsInitial(path[i], path[i + 1]);
      CreatedNeverRevisited(path, i + 1, j);
    }
  }

  /** `is_mutating_session_command` is false exactly for the six listed types. */
  lemma NonMutatingKinds(k: CommandKind)
    ensures !IsMutating(TypeName(k)) <==>
              k in {KPinSession, KCreateCorrectionSession, KAddAnchorRule, KDisableAnchorRule,
                    KAddDictionaryRule, KDisableDictionaryRule}
  {
  }

  /**
   * Locked's allow-list is exactly the non-mutating set, so a locked session
   * rejects a command only with SessionLocked.
   */
  lemma LockedOnlyRejectsAsLocked(commandType: string)
    ensures AllowedIn(Locked) == NonMutating
    ensures AssertAllowed(commandType, Locked).Err? <==> IsMutating(commandType)
    ensures AssertAllowed(commandType, Locked).Err? ==>
              AssertAllowed(commandType, Locked).error.code == SessionLocked
  {
  }

  /** Pinning and the four rule commands are allowed whatever the status. */
  lemma SessionIndependentCommandsAlwaysAllowed(k: CommandKind, s: SessionStatus)
    requires k in {KPinSession, KAddAnchorRule, KDisableAnchorRule, KAddDictionaryRule,
                   KDisableDictionaryRule}
    ensures AssertAllowed(TypeName(k), s) == Ok(Unit)
  {
    SessionIndependentNames(k);
    SessionIndependentTypesAllowed(s);
    assert TypeName(k) in AllowedIn(s) && !IsMutating(TypeName(k));
  }

  const SessionIndependentTypes: set<string> := {
    "PinSession", "AddAnchorRule", "DisableAnchorRule", "AddDictionaryRule", "DisableDictionaryRule"}

  lemma SessionIndependentNames(k: CommandKind)
    requires k in {KPinSession, KAddAnchorRule, KDisableAnchorRule, KAddDictionaryRule,
                   KDisableDictionaryRule}
    ensures TypeName(k) in SessionIndependentTypes
  {
  }

  lemma SessionIndependentTypesAllowed(s: SessionStatus)
    ensures SessionIndependentTypes <= NonMutating
    ensures SessionIndependentTypes <= AllowedIn(s)
  {
  }

  /** A session can be exported only once it is Validated. */
  lemma ExportOnlyWhenValidated(s: SessionStatus)
    ensures AssertAllowed("ExportSession", s).Ok? <==> s == Validated
  {
  }
}
