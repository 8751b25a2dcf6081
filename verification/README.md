# Tabulara command layer and tooling — a Dafny model

This project models the deterministic core of Tabulara, an operations console
for a document-intake pipeline. It has five parts.

1. **The Rust command layer.**
   - The session-status state machine and its per-status command allow-lists (`TransitionPolicy`).
   - The idempotency ledger (`Idempotency`).
   - The append-only event store and the simple event factory (`EventStore`).
   - The first-match handler router (`CommandRouter`).
   - The closed command enum with its type names and session ids (`Commands`, `CommandTypes`).
   - The dispatcher pipeline (`Dispatcher`). It runs: request hash, ledger `begin`,
     session status and allow-list check, handler lookup, handler, transition check,
     projections, events, append, then `commit` or `mark_failed`.
   - Dispatch is a pure function from a store and a command to a new store and a result.
     The handlers, the request hash, the event factory, the invariant engine and the clock
     are parameters.
2. **The JavaScript envelope dispatcher** (`Envelope`). This covers `validateCommandEnvelope`
   and `dispatch` in the command dispatcher and their copy in the dev server. It also covers
   the status and body each HTTP route chooses, over an already-read request body.
3. **Console helpers and the test factory.**
   - The console's MIME inference, blob-id normalisation, ConfirmDuplicate key construction
     and failure-display mapping (`Console`, `CorrelationKeys`).
   - The document-import command factory's default merging (`ImportCommandFactory`).
4. **The latency smoke harness** (`LatencyHarness`, `LatencyPercentile`, `FnvHash`). This
   covers percentile selection, scenario normalisation, failure summaries, request validation
   order, status selection and the 32-bit FNV-1a hash.
5. **CI tooling.**
   - The story status-integrity checker (`StatusIntegrity`): its indented-YAML subset parser
     and mismatch classification.
   - The NFR scripts (`NfrNormalize`, `NfrGate`, `NfrCollect`): first-resolving-path lookup,
     integer coercion, the normalised security and burn-in artifacts, the integer gates, and
     severity bucketing and counting.

JavaScript values are `JsValues.JsValue`; parsed-JSON values in the Python scripts are
`PyValues.PyValue`. `Text` holds the whitespace sets of both languages, trimming, ASCII
lower-casing, split/join and UTF-16 code units. `Sorting` is a generic insertion sort.

Where the code and the system's design description disagree, the model follows the code.
- **Failed commands are not retryable.** The design says a failed command can be retried
  under the same command id. In the code, a `Failed` ledger entry makes every later `begin`
  for that id return Conflict (`in_memory_reference_impl.rs:61`), so the command never
  runs again (`Dispatcher.FailedStaysFailed`).
- **There is no rollback.** The design promises all-or-nothing transactions, but
  `within_tx` just calls the closure (`in_memory_reference_impl.rs:199-204`). Projections
  and appended events written before a later failure stay in the store
  (`Dispatcher.NoRollback`).
- **The duplicate test expects the wrong key.** The story 1-3 API test expects
  `session-dup-p1:doc-z:doc-a` (`tests/api/story-1-3-import-documents-with-duplicate-handling.automation.spec.ts:180`).
  The code sorts the pair first and yields `session-dup-p1:doc-a:doc-z`
  (`CorrelationKeys.StoryTestKeys`).

## Model

| member | source | states |
|---|---|---|
| TransitionPolicy.AssertAllowed | _bmad-output/implementation-artifacts/rust-stubs/tabulara_command_layer/transition_policy.rs:158-184 | a Locked session rejects a mutating command with SessionLocked before the allow-list is consulted; otherwise the command passes exactly when its type is on the status's allow-list, and a rejection is CommandNotAllowedInState with command_type and status details |
| TransitionPolicy.AssertTransition | _bmad-output/implementation-artifacts/rust-stubs/tabulara_command_layer/transition_policy.rs:186-200 | a transition passes exactly when it stays put or is one of the seven legal edges; otherwise InvalidStateTransition with from/to details |
| TransitionPolicy.TransitionMatchesWorkflow | _bmad-output/implementation-artifacts/rust-stubs/tabulara_command_layer/transition_policy.rs:134-142 | the edge table accepts exactly the steps of the workflow Created → Processing ⇄ Review ⇄ Validated → Exported → Locked, written status by status |
| TransitionPolicy.SelfTransitionAllowed | _bmad-output/implementation-artifacts/rust-stubs/tabulara_command_layer/transition_policy.rs:187-189 | every status may transition to itself |
| TransitionPolicy.LockedIsFinalAndCreatedIsInitial | _bmad-output/implementation-artifacts/rust-stubs/tabulara_command_layer/transition_policy.rs:134-142 | Locked can only go to Locked, and only Created leads into Created |
| TransitionPolicy.LockedForever | _bmad-output/implementation-artifacts/rust-stubs/tabulara_command_layer/transition_policy.rs:134-142 | along any path of accepted transitions, a session that reaches Locked stays Locked |
| TransitionPolicy.CreatedNeverRevisited | _bmad-output/implementation-artifacts/rust-stubs/tabulara_command_layer/transition_policy.rs:134-142 | along any path of accepted transitions, a session that has left Created never returns to it |
| TransitionPolicy.NonMutatingKinds | _bmad-output/implementation-artifacts/rust-stubs/tabulara_command_layer/transition_policy.rs:207-217 | a command kind is non-mutating exactly when it is PinSession, CreateCorrectionSession or one of the four anchor/dictionary rule commands |
| TransitionPolicy.LockedOnlyRejectsAsLocked | _bmad-output/implementation-artifacts/rust-stubs/tabulara_command_layer/transition_policy.rs:122-132 | Locked's allow-list is the non-mutating set, so a Locked session rejects exactly the mutating commands and always with SessionLocked |
| TransitionPolicy.SessionIndependentCommandsAlwaysAllowed | _bmad-output/implementation-artifacts/rust-stubs/tabulara_command_layer/transition_policy.rs:18-132 | PinSession and the four rule commands pass in every status |
| TransitionPolicy.ExportOnlyWhenValidated | _bmad-output/implementation-artifacts/rust-stubs/tabulara_command_layer/transition_policy.rs:18-132 | ExportSession is allowed exactly in Validated |
| Idempotency.Begin | _bmad-output/implementation-artifacts/rust-stubs/tabulara_command_layer/in_memory_reference_impl.rs:36-63 | an unseen id gets an InProgress entry with the request hash and New; a known id leaves the ledger unchanged and gives Conflict on a different hash, Replay of the stored result exactly when the entry is Committed, and Conflict for InProgress or Failed |
| Idempotency.Commit | _bmad-output/implementation-artifacts/rust-stubs/tabulara_command_layer/in_memory_reference_impl.rs:65-76 | an unknown id is NotFound with the ledger untouched; otherwise that entry becomes Committed with the result, keeping its hash, and every other entry is unchanged |
| Idempotency.MarkFailed | _bmad-output/implementation-artifacts/rust-stubs/tabulara_command_layer/in_memory_reference_impl.rs:78-89 | an unknown id is NotFound with the ledger untouched; otherwise that entry becomes Failed with the error, keeping its hash, and every other entry is unchanged |
| Idempotency.LedgerRemembers | _bmad-output/implementation-artifacts/rust-stubs/tabulara_command_layer/in_memory_reference_impl.rs:36-89 | after any sequence of begin/commit/mark_failed, a recorded id is still recorded with its original request hash |
| Idempotency.NeverNewTwice | _bmad-output/implementation-artifacts/rust-stubs/tabulara_command_layer/in_memory_reference_impl.rs:39-51 | once an id is in the ledger, no later begin for it returns New |
| Idempotency.InFlightConflicts | _bmad-output/implementation-artifacts/rust-stubs/tabulara_command_layer/in_memory_reference_impl.rs:52-61 | a second begin for an id still InProgress is Conflict, whatever its hash |
| Idempotency.CommitThenReplay | _bmad-output/implementation-artifacts/rust-stubs/tabulara_command_layer/in_memory_reference_impl.rs:53-60 | after begin and commit, the same hash replays the committed result and a different hash conflicts |
| Idempotency.FailedThenConflict | _bmad-output/implementation-artifacts/rust-stubs/tabulara_command_layer/in_memory_reference_impl.rs:61 | after begin and mark_failed, every later begin for the id is Conflict, even with the same hash |
| EventStore.Append | _bmad-output/implementation-artifacts/rust-stubs/tabulara_command_layer/in_memory_reference_impl.rs:105-109 | the old log is a prefix of the new one and the appended events follow in their given order |
| EventStore.AppendTwice | _bmad-output/implementation-artifacts/rust-stubs/tabulara_command_layer/in_memory_reference_impl.rs:105-109 | appending a and then b is appending a + b |
| EventStore.BuildEvents | _bmad-output/implementation-artifacts/rust-stubs/tabulara_command_layer/in_memory_reference_impl.rs:211-232 | exactly one event, with the given id and time and caused_by the command id, whose type text parses back to the command kind and the transition target (none when there is no transition) |
| EventStore.ParseEventType | _bmad-output/implementation-artifacts/rust-stubs/tabulara_command_layer/in_memory_reference_impl.rs:216-220 | a parsed event type prints back to the text it was parsed from |
| EventStore.EventTypeRoundTrip | _bmad-output/implementation-artifacts/rust-stubs/tabulara_command_layer/in_memory_reference_impl.rs:216-220 | parsing the event type built from a command kind and target gives back that kind and target |
| EventStore.EventTypeInjective | _bmad-output/implementation-artifacts/rust-stubs/tabulara_command_layer/in_memory_reference_impl.rs:216-220 | two events with the same type text come from the same command kind and the same target |
| Dispatcher.ChooseStatus | _bmad-output/implementation-artifacts/rust-stubs/tabulara_command_layer/dispatcher_impl.rs:78-80 | the transition target when there is one, else the prior status |
| Dispatcher.CheckSession | _bmad-output/implementation-artifacts/rust-stubs/tabulara_command_layer/dispatcher_impl.rs:104-109 | session-less commands skip the check; a session id with no status is NotFound; otherwise the result is the allow-list verdict for the current status |
| Dispatcher.CheckTransition | _bmad-output/implementation-artifacts/rust-stubs/tabulara_command_layer/dispatcher_impl.rs:124-126 | a transition is checked against the current status only when both exist |
| Dispatcher.ApplyProjections | _bmad-output/implementation-artifacts/rust-stubs/tabulara_command_layer/dispatcher_impl.rs:128-138 | the state delta, review actions and validation trigger are appended; the session status is set only when the command has a session and a transition; ledger and events are untouched |
| Dispatcher.Finish | _bmad-output/implementation-artifacts/rust-stubs/tabulara_command_layer/dispatcher_impl.rs:124-160 | the tail of the pipeline keeps the ledger and only extends the log; an Ok result echoes the command id, lists the appended events' ids (at least one), is not a replay, and carries the chosen status |
| Dispatcher.RunTx | _bmad-output/implementation-artifacts/rust-stubs/tabulara_command_layer/dispatcher_impl.rs:100-161 | a failed session check returns that error with the store unchanged; a missing handler is NotFound with the store unchanged; an Ok result has command id and at least one event id |
| Dispatcher.RunTxStatuses | _bmad-output/implementation-artifacts/rust-stubs/tabulara_command_layer/dispatcher_impl.rs:100-161 | an Ok session-scoped command was allowed in its prior status, moved along a legal transition and its new status is stored; session-less commands leave statuses alone |
| Dispatcher.Dispatch | _bmad-output/implementation-artifacts/rust-stubs/tabulara_command_layer/dispatcher_impl.rs:84-174 | the event log only grows, the ledger gains at most the command's own id, and every other ledger entry is unchanged |
| Dispatcher.HashFailureHasNoEffect | _bmad-output/implementation-artifacts/rust-stubs/tabulara_command_layer/dispatcher_impl.rs:84-86 | a request-hash failure is returned with no effect on the store |
| Dispatcher.ReplayIsVerbatim | _bmad-output/implementation-artifacts/rust-stubs/tabulara_command_layer/dispatcher_impl.rs:88-89 | a committed entry with the same hash returns its stored result verbatim with no effect on the store |
| Dispatcher.ConflictHasNoEffect | _bmad-output/implementation-artifacts/rust-stubs/tabulara_command_layer/dispatcher_impl.rs:90-96 | a different hash, or an entry not Committed, yields IdempotencyConflict with no effect on the store |
| Dispatcher.FreshOkResult | _bmad-output/implementation-artifacts/rust-stubs/tabulara_command_layer/dispatcher_impl.rs:152-171 | a fresh command's Ok result echoes its id, lists the appended events' ids (at least one), is not a replay, and is stored as the Committed result |
| Dispatcher.FreshErrMarksFailed | _bmad-output/implementation-artifacts/rust-stubs/tabulara_command_layer/dispatcher_impl.rs:163-171 | a fresh command's error is recorded on a Failed ledger entry carrying its request hash |
| Dispatcher.SessionCheckedFirst | _bmad-output/implementation-artifacts/rust-stubs/tabulara_command_layer/dispatcher_impl.rs:104-109 | a failed status/allow-list check is returned before any handler runs, and only the ledger changes |
| Dispatcher.NoHandlerIsNotFound | _bmad-output/implementation-artifacts/rust-stubs/tabulara_command_layer/dispatcher_impl.rs:111-115 | when no handler accepts the type the result is NotFound and only the ledger changes |
| Dispatcher.SessionOkFollowsPolicy | _bmad-output/implementation-artifacts/rust-stubs/tabulara_command_layer/dispatcher_impl.rs:104-126 | a successful session-scoped dispatch was allowed in the prior status, took a legal transition and stored the new status |
| Dispatcher.LockedSessionRejectsMutation | _bmad-output/implementation-artifacts/rust-stubs/tabulara_command_layer/dispatcher_impl.rs:104-109 | a mutating command on a Locked session fails with SessionLocked and only the ledger changes |
| Dispatcher.NoRollback | _bmad-output/implementation-artifacts/rust-stubs/tabulara_command_layer/in_memory_reference_impl.rs:199-204 | once the handler and the transition check pass, projections and events stay written even when the invariant check fails; an empty event list is InvariantViolation |
| Dispatcher.FinishKeepsWrites | _bmad-output/implementation-artifacts/rust-stubs/tabulara_command_layer/dispatcher_impl.rs:128-149 | the projection and event writes survive whatever the invariant engine says, and no events means InvariantViolation |
| Dispatcher.DispatchKeepsGoodLedger | _bmad-output/implementation-artifacts/rust-stubs/tabulara_command_layer/dispatcher_impl.rs:84-174 | every Committed entry keeps a result and every Failed entry an error, and an Ok result names its command and at least one event |
| Dispatcher.FailedStaysFailed | _bmad-output/implementation-artifacts/rust-stubs/tabulara_command_layer/in_memory_reference_impl.rs:61 | after any sequence of dispatches, a Failed entry is still Failed and the log has only grown |
| CommandRouter.New | _bmad-output/implementation-artifacts/rust-stubs/tabulara_command_layer/command_router.rs:10-12 | a new router has no handlers |
| CommandRouter.WithHandlers | _bmad-output/implementation-artifacts/rust-stubs/tabulara_command_layer/command_router.rs:14-16 | the router holds exactly the given handlers |
| CommandRouter.Register | _bmad-output/implementation-artifacts/rust-stubs/tabulara_command_layer/command_router.rs:18-20 | registration appends one handler at the end and keeps the earlier ones in place |
| CommandRouter.Handlers | _bmad-output/implementation-artifacts/rust-stubs/tabulara_command_layer/command_router.rs:22-24 | the handlers come back in registration order |
| CommandRouter.FindFirst | _bmad-output/implementation-artifacts/rust-stubs/tabulara_command_layer/command_router.rs:28-31 | the index of the first accepting handler, or none exactly when no handler accepts |
| CommandRouter.Resolve | _bmad-output/implementation-artifacts/rust-stubs/tabulara_command_layer/command_router.rs:26-37 | succeeds exactly when some handler accepts the command type and then returns the earliest one; otherwise NotFound without details |
| CommandRouter.RegisterAllAppends | _bmad-output/implementation-artifacts/rust-stubs/tabulara_command_layer/command_router.rs:18-24 | registering a list of handlers one by one appends the whole list in order |
| CommandRouter.RegisteringEqualsWithHandlers | _bmad-output/implementation-artifacts/rust-stubs/tabulara_command_layer/command_router.rs:10-20 | registering handlers one by one into a new router builds the same router as with_handlers |
| CommandRouter.RegisterKeepsEarlierWinner | _bmad-output/implementation-artifacts/rust-stubs/tabulara_command_layer/command_router.rs:18-36 | registering another handler never changes a resolution that already succeeded, and makes a failing one succeed exactly when the new handler accepts |
| Commands.SessionId | _bmad-output/implementation-artifacts/rust-stubs/tabulara_command_layer/commands.rs:52-470 | no session id exactly for CreateSession, CreateCorrectionSession and the four rule commands; otherwise the payload's session id |
| Commands.KindNamed | _bmad-output/implementation-artifacts/rust-stubs/tabulara_command_layer/command_router.rs:46-77 | a kind found for a name has that name as its command type |
| Commands.TypeNameRoundTrip | _bmad-output/implementation-artifacts/rust-stubs/tabulara_command_layer/command_router.rs:46-77 | looking up the type name of any kind gives back that kind, so command_type is total over the 28 variants |
| Commands.TypeNameInjective | _bmad-output/implementation-artifacts/rust-stubs/tabulara_command_layer/command_router.rs:46-77 | two kinds with the same type name are the same kind |
| Commands.CommandTypeInjective | _bmad-output/implementation-artifacts/rust-stubs/tabulara_command_layer/commands.rs:31 | two commands have the same command type exactly when they are the same variant |
| Envelope.MissingAmongMembers | scripts/command-dispatcher.mjs:4 | a field is reported missing exactly when it is required and its value is undefined |
| Envelope.RequiredIssues | scripts/command-dispatcher.mjs:16 | one {field, reason: "required"} detail per missing field, in the same order |
| Envelope.ValidateCommandEnvelope | scripts/command-dispatcher.mjs:3-19 | a null or undefined body throws; otherwise valid exactly when no required field is undefined, and an invalid result has code CMD_ENVELOPE_VALIDATION_FAILED, category validation, the missing fields and one detail each |
| Envelope.MissingFieldsInFixedOrder | scripts/command-dispatcher.mjs:1-4 | the missing fields come in the fixed order command_id, type, actor, timestamp, payload |
| Envelope.EmptyEnvelopeMissesAll | src/App.tsx:253-254 | an empty envelope reports all five fields, in order, with one detail each |
| Envelope.FalsyValuesArePresent | scripts/command-dispatcher.mjs:4 | null, false, 0 and "" all count as present |
| Envelope.DispatchEnvelope | scripts/command-dispatcher.mjs:23-45 | 202 exactly when the envelope is valid, echoing command_id with both effect flags true; otherwise 400 carrying the validation error with both flags false |
| Envelope.LocalApiDispatchRoute | scripts/local-api-server.mjs:83-100 | an unreadable body is 400 CMD_INVALID_JSON; a null or undefined body is also answered as invalid JSON; otherwise the dispatcher's response |
| Envelope.DevServerDispatchRoute | scripts/dev-server.mjs:93-124 | only 202 or 400; a 202 body holds only accepted and the command id; an unreadable body is 400 CMD_INVALID_JSON |
| Envelope.RoutesAgree | scripts/dev-server.mjs:46-62 | both servers give the same status for every body, the same 400 response, and the same accepted command id |
| Envelope.RejectionsApplyNothing | scripts/command-dispatcher.mjs:25-33 | every 400 response says neither mutation applied nor event appended |
| Console.MimeOfNormalized | src/App.tsx:70-83 | one of the five strings, and `application/octet-stream` exactly when no recognised extension ends the name |
| Console.InferMimeType | src/App.tsx:69-84 | one of the five strings, and `application/octet-stream` exactly when no recognised extension ends the trimmed, lower-cased name |
| Console.ExtensionDecidesMime | src/App.tsx:69-84 | a file name ending in a recognised extension, in any case, maps to that extension's MIME type |
| Console.NormalizeSegments | src/App.tsx:86-93 | never empty; every id is trimmed and non-empty; the kept ids are exactly the non-blank trimmed segments, and all-blank input gives ["blob-default"] |
| Console.NormalizeSegmentsCounts | src/App.tsx:87-90 | each non-blank trimmed segment is kept exactly as many times as it occurs, and no blank one is |
| Console.NormalizeSegmentsAppend | src/App.tsx:87-90 | the kept ids stay in input order: normalising concatenated segment lists concatenates their results |
| Console.NormalizeJoinRoundTrip | src/App.tsx:86-93 | joining clean comma-free ids with commas and normalising gives the same ids back |
| Console.NormalizedIdsHaveNoComma | src/App.tsx:86-93 | no normalised id contains a comma |
| Console.NormalizeIsStable | src/App.tsx:86-93 | normalising the comma-joined normalised ids changes nothing |
| Console.ResolveDuplicateIds | src/App.tsx:328-333 | typed ids win when non-blank; the session then falls back to the remembered session and then to `session-<uuid>`; the document to the first imported id and then to `<session>:doc-duplicate`; the duplicate-of id to the second, then the first imported id and then `<session>:doc-original` |
| Console.SingleImportPairsWithItself | src/App.tsx:329-331 | with blank inputs and one imported document, both ids fall back to that document |
| Console.ConsoleKeysIgnoreOrder | src/App.tsx:334-343 | swapping the two document ids leaves pair_key and deterministic_key unchanged |
| Console.FlagDisplay | src/App.tsx:182-194 | the mutation (`applied`/`not-applied`) and event (`appended`/`not-appended`) indicators: the positive word exactly when the body's flag is set; the negative word exactly for an unflagged failure other than 400; `none` for an unflagged acceptance or 400 |
| Console.ConsoleShowsRouteOutcome | src/App.tsx:176-194 | against the local API the console shows applied/appended exactly on 202, otherwise none; against the dev server it always shows none |
| Console.AuditHistoryPreserved | src/App.tsx:241-243 | "true" exactly when the audit log has more than one entry |
| CorrelationKeys.SortedPair | src/App.tsx:334 | the pair in ascending UTF-16 code-unit order |
| CorrelationKeys.KeysSymmetric | tests/support/fixtures/factories/document-import-command-factory.ts:91-94 | pair_key and deterministic_key do not depend on which id is the duplicate |
| CorrelationKeys.KeysPutSmallerFirst | tests/support/fixtures/factories/document-import-command-factory.ts:91-94 | both keys put the smaller id first, as min::max and session:min:max |
| CorrelationKeys.StoryTestKeys | tests/api/story-1-3-import-documents-with-duplicate-handling.automation.spec.ts:180 | for doc-z duplicating doc-a the code yields doc-a::doc-z and session-dup-p1:doc-a:doc-z |
| ImportCommandFactory.CreateActor | tests/support/fixtures/factories/document-import-command-factory.ts:53-59 | id and role default to ops-<suffix> and ops-user, and every override wins |
| ImportCommandFactory.EnvelopeOf | tests/support/fixtures/factories/document-import-command-factory.ts:61-85 | the type, actor and payload as given; command_id and timestamp from the options unless null or undefined |
| ImportCommandFactory.Merge | tests/support/fixtures/factories/document-import-command-factory.ts:76-82 | defaults overridden key by key |
| ImportCommandFactory.ImportDocumentEnvelope | tests/support/fixtures/factories/document-import-command-factory.ts:61-85 | null options throw; session_id and blob_ids fall back only when null or undefined; metadata defaults are overridden key by key |
| ImportCommandFactory.ConfirmDuplicateAsWritten | tests/support/fixtures/factories/document-import-command-factory.ts:87-115 | the factory as written: every caller payload field wins, including a caller correlation, which replaces the merged correlation wholesale |
| ImportCommandFactory.ConfirmDuplicateEnvelope | tests/support/fixtures/factories/document-import-command-factory.ts:105-111 | the corrected factory: caller fields other than correlation win, and the correlation is the computed defaults overridden key by key |
| ImportCommandFactory.PartialCorrelationLosesPairKey | tests/support/fixtures/factories/document-import-command-factory.ts:110-112 | as written, a caller correlation of only a detector yields a correlation with no pair_key |
| ImportCommandFactory.PartialCorrelationKeepsPairKey | tests/support/fixtures/factories/document-import-command-factory.ts:105-111 | corrected, the same options keep the computed pair_key and take the caller's detector |
| ImportCommandFactory.CorrectionOnlyTouchesCorrelation | tests/support/fixtures/factories/document-import-command-factory.ts:105-112 | the two factories differ only in the correlation field, and agree entirely when the caller gives no correlation |
| ImportCommandFactory.DefaultCorrelationIgnoresOrder | tests/support/fixtures/factories/document-import-command-factory.ts:94-107 | the default correlation is the same with the two document ids swapped |
| ImportCommandFactory.FactoryEnvelopesAreValid | tests/support/fixtures/factories/document-import-command-factory.ts:61-115 | every envelope the factory builds passes the dispatcher's envelope validation |
| LatencyPercentile.Percentile | scripts/latency-smoke-harness.mjs:14-22 | 0 for a missing or empty list; otherwise an element of the input |
| LatencyPercentile.PercentileIsOrderStatistic | scripts/latency-smoke-harness.mjs:18-21 | the result is the order statistic at index clamp(ceil(target·n/100) − 1): fewer than k+1 samples lie below it and at least k+1 lie at or below it |
| LatencyPercentile.PercentileMonotone | scripts/latency-smoke-harness.mjs:14-22 | a higher target never gives a lower percentile |
| LatencyPercentile.PercentilesOrdered | scripts/latency-smoke-harness.mjs:132-138 | p50 ≤ p95 ≤ p99 |
| LatencyPercentile.SortedAscending | scripts/latency-smoke-harness.mjs:18 | the sorted copy is a permutation of the input in ascending order |
| LatencyHarness.PercentilesOf | scripts/latency-smoke-harness.mjs:132-138 | p50 ≤ p95 ≤ p99 |
| LatencyHarness.AcceptAll | scripts/latency-smoke-harness.mjs:62-104 | succeeds exactly when every scenario passes the object, id/workflow and duplicate checks; otherwise fails with the first offending scenario's error; on success the ids are distinct |
| LatencyHarness.NormalizeScenarios | scripts/latency-smoke-harness.mjs:48-108 | a missing or empty list is scenarios_required; otherwise the first bad scenario's error; on success the same number of scenarios, a permutation of the parsed ones, with trimmed ids in strictly ascending order |
| LatencyHarness.SortScenarios | scripts/latency-smoke-harness.mjs:106 | a permutation of distinct-id scenarios in strictly ascending id order |
| LatencyHarness.StrictlyByIdUnique | scripts/latency-smoke-harness.mjs:106 | two lists strictly ordered by id with the same elements are equal, so the sorted scenario order is determined |
| LatencyHarness.ScenarioOf | scripts/latency-smoke-harness.mjs:78-96 | queueDepth is at least 1 |
| LatencyHarness.SummarizeFailures | scripts/latency-smoke-harness.mjs:140-163 | every failure is observed at p95, strictly over its own metric's threshold, and at most two per scenario |
| LatencyHarness.FailuresAreExceedingCandidates | scripts/latency-smoke-harness.mjs:140-163 | the failures are exactly the candidates (highlight then queue, scenario by scenario) that exceed their threshold, in order |
| LatencyHarness.WithinBudgetIffAllUnderThreshold | scripts/latency-smoke-harness.mjs:284-292 | a metric is within budget exactly when no scenario's p95 for it exceeds the threshold |
| LatencyHarness.Evaluate | scripts/latency-smoke-harness.mjs:324-357 | status is 200 or 422 |
| LatencyHarness.EvaluateStatus | scripts/latency-smoke-harness.mjs:284-357 | 422 exactly when some scenario's p95 exceeds its threshold; a pass reports both metrics within budget |
| LatencyHarness.RunLatencySmoke | scripts/latency-smoke-harness.mjs:193-358 | validation in order: non-object, allow_random_order true, blank seed, then `scenarios_required` or the first rejected scenario's reason, each a 400 with no mutation; any other response is `Evaluate` of the id-sorted scenarios with the request's thresholds (100 and 150 by default), so 422 exactly for exceeded thresholds, with failures, exit code 1 and LATENCY_THRESHOLD_EXCEEDED |
| LatencyHarness.DefaultThresholds | scripts/latency-smoke-harness.mjs:245-251 | without a thresholds object the limits are 100 and 150 ms |
| FnvHash.Xfnv1a | scripts/latency-smoke-harness.mjs:24-31 | the result is in [0, 2^32) and is FNV-1a with 32-bit wrap-around over the string's UTF-16 code units |
| FnvHash.Fnv1aSnoc | scripts/latency-smoke-harness.mjs:26-29 | hashing one more code unit is one more xor-and-multiply step |
| FnvHash.KnownAnswers | scripts/latency-smoke-harness.mjs:25-30 | the empty string hashes to the offset basis 0x811c9dc5, and "a" to 0xe40c292c |
| Sorting.SortBy | scripts/latency-smoke-harness.mjs:106 | a permutation of the input, sorted under any total preorder |
| StatusIntegrity.Lines | scripts/verify-status-integrity.mjs:19 | one line per newline-separated piece, none containing a newline |
| StatusIntegrity.LinesOfJoined | scripts/verify-status-integrity.mjs:19 | splitting lines joined with LF or CRLF gives the lines back |
| StatusIntegrity.ParseEntry | scripts/verify-status-integrity.mjs:39-44 | a parsed key is trimmed and colon-free and a parsed value has no whitespace or # |
| StatusIntegrity.ParseEntryComplete | scripts/verify-status-integrity.mjs:39 | every line of the entry shape (two spaces, key, colon, value, optional comment) is parsed to its trimmed key and value |
| StatusIntegrity.ParseEntrySound | scripts/verify-status-integrity.mjs:39 | every parsed line has the entry shape, with the reported key and value |
| StatusIntegrity.ParseDevelopmentStatus | scripts/verify-status-integrity.mjs:18-48 | all keys and values are well formed, and a text with no header gives an empty map |
| StatusIntegrity.IgnoresPreamble | scripts/verify-status-integrity.mjs:23-29 | lines before the exact development_status: header do not matter |
| StatusIntegrity.StopsAtOutdent | scripts/verify-status-integrity.mjs:31-37 | the section ends at the first non-blank line without two leading spaces |
| StatusIntegrity.ParseLastWins | scripts/verify-status-integrity.mjs:39-44 | a key's value is the one on its last entry line in the section |
| StatusIntegrity.NormalizeStatusIdempotent | scripts/verify-status-integrity.mjs:50-52 | normalising a status twice is normalising it once |
| StatusIntegrity.StoryKeyIff | scripts/verify-status-integrity.mjs:9 | a story key is one or more digits followed by a dash |
| StatusIntegrity.CanonicalCheck | scripts/verify-status-integrity.mjs:90-136 | a canonical story's mismatch names that story and its expected status, and is never missing-canonical |
| StatusIntegrity.OrphanCheck | scripts/verify-status-integrity.mjs:138-163 | an orphan mismatch is missing-canonical for a key the status file lacks |
| StatusIntegrity.MismatchClassification | scripts/verify-status-integrity.mjs:90-163 | a mismatch is reported exactly when it is a missing-file (unless the expected status is backlog), missing-status, status-mismatch after normalisation, or missing-canonical case |
| StatusIntegrity.OneMismatchPerKey | scripts/verify-status-integrity.mjs:90-163 | no story key is reported twice |
| StatusIntegrity.AgreeingStoryPasses | scripts/verify-status-integrity.mjs:127-135 | a story whose file status normalises to the canonical one is never reported |
| StatusIntegrity.VerifyStatusIntegrity | scripts/verify-status-integrity.mjs:64-179 | a status-file load failure, a missing story location and a story-directory load failure are their own errors with exit code 3; otherwise exit code 2 exactly when some mismatch is found and 0 exactly when none is, reporting the mismatches and the number of story keys checked |
| NfrNormalize.DeepGetFirst | scripts/nfr_normalize.py:45-57 | the value at the first fully resolving path, or None when none resolves |
| NfrNormalize.DeepGetFirstAppend | scripts/nfr_normalize.py:46-56 | an earlier resolving path wins over any later one |
| NfrNormalize.ToInt | scripts/nfr_normalize.py:60-72 | booleans give 0 or 1, ints stay, floats truncate, strings are stripped and parsed or give the default, everything else gives the default |
| NfrNormalize.ToIntDefault | scripts/nfr_normalize.py:60-72 | the default matters only for a value that is neither a number nor a readable string |
| NfrNormalize.NormalizedSecurityStatus | scripts/nfr_normalize.py:99-110 | status is PASS exactly when critical and high are both 0, and summary and vulnerabilities carry the same counts |
| NfrNormalize.SecurityCountsOfArtifact | scripts/nfr_normalize.py:88-112 | reading counts from a normalised artifact gives the counts it was written from |
| NfrNormalize.NormalizeSecurityStable | scripts/nfr_normalize.py:88-112 | normalising a normalised security artifact keeps its counts |
| NfrNormalize.BurninCountsOf | scripts/nfr_normalize.py:214-216 | a missing total defaults to the consecutive passes, and missing failures to max(total − consecutive, 0) |
| NfrNormalize.NormalizedBurninStatus | scripts/nfr_normalize.py:214-223 | status is PASS exactly when consecutive passes reach 100 |
| NfrNormalize.BurninCountsOfArtifact | scripts/nfr_normalize.py:199-224 | reading counts from a normalised burn-in artifact gives the counts it was written from |
| NfrNormalize.NormalizeBurninStable | scripts/nfr_normalize.py:199-224 | normalising a normalised burn-in artifact keeps its counts |
| NfrGate.FirstInt | scripts/check_nfr_gate.py:16-29 | the int of the first path that resolves to a number, skipping paths that resolve to non-numbers; none exactly when no path does |
| NfrGate.FirstIntAgreesWithDeepGet | scripts/check_nfr_gate.py:16-29 | when the normaliser's lookup finds a number, the gate's lookup finds the same one |
| NfrGate.CountErrors | scripts/check_nfr_gate.py:58-65 | no error exactly when the count is present and 0, else one |
| NfrGate.SecurityErrors | scripts/check_nfr_gate.py:54-65 | one error for each of critical and high that is missing or nonzero |
| NfrGate.BurninErrors | scripts/check_nfr_gate.py:67-75 | at most one error, none exactly when consecutive_passes is present and at least 100 |
| NfrGate.ExitCode | scripts/check_nfr_gate.py:95-102 | 1 exactly when there are errors, else 0 |
| NfrGate.GateVerdict | scripts/check_nfr_gate.py:54-102 | the gate passes exactly when both security reports and the burn-in pass and no fractional rule fails |
| NfrGate.NormalizedSecurityPassesGate | scripts/check_nfr_gate.py:54-65 | the gate accepts a normalised security artifact exactly when its status is PASS |
| NfrGate.NormalizedBurninPassesGate | scripts/check_nfr_gate.py:67-75 | the gate accepts a normalised burn-in artifact exactly when its status is PASS |
| NfrCollect.SeverityBucket | scripts/nfr_collect_raw.py:22-32 | falsy severities are info |
| NfrCollect.StringSeverity | scripts/nfr_collect_raw.py:23-32 | a string lands in the bucket its stripped, lower-cased text names; blank text is info |
| NfrCollect.BucketIgnoresCaseAndPadding | scripts/nfr_collect_raw.py:23 | case and surrounding whitespace do not change the bucket |
| NfrCollect.NormalizeIdempotent | scripts/nfr_collect_raw.py:23 | stripping and lower-casing twice is doing it once |
| NfrCollect.IntegerSeverity | scripts/nfr_collect_raw.py:22-32 | integers 5, 4, 3 and 2 are critical, high, medium and low; every other integer is info |
| NfrCollect.BooleanSeverity | scripts/nfr_collect_raw.py:22-32 | booleans are always info |
| NfrCollect.TallyCounts | scripts/nfr_collect_raw.py:37-40 | each counter holds how often its severity occurs |
| NfrCollect.Tally | scripts/nfr_collect_raw.py:37-40 | the five counters sum to the number of findings |
| NfrCollect.ParseBandit | scripts/nfr_collect_raw.py:35-41 | a non-object report fails on `.get`; on success the five counters sum to the number of results |
| NfrCollect.BanditWithoutResults | scripts/nfr_collect_raw.py:38 | a report without results counts zero everywhere |
| NfrCollect.BanditTallies | scripts/nfr_collect_raw.py:35-41 | a report whose results are all dicts tallies their severities, so the counts sum to the number of results |
| NfrCollect.BanditCountsPerBucket | scripts/nfr_collect_raw.py:38-40 | each bucket counts exactly the results whose issue_severity lands in it |
| NfrCollect.VulnSeverity | scripts/nfr_collect_raw.py:51 | severity, or cvss_severity when severity is falsy |
| NfrCollect.AuditSeverities | scripts/nfr_collect_raw.py:48-52 | succeeds exactly when every dependency is a dict whose vulns are all dicts; otherwise raises the error of the first dependency that fails; one severity per vulnerability |
| NfrCollect.VulnSeverities | scripts/nfr_collect_raw.py:50-51 | succeeds exactly when every vulnerability is a dict, raising AttributeError otherwise; one severity per vulnerability, in order |
| NfrCollect.ParsePipAudit | scripts/nfr_collect_raw.py:44-53 | a non-object report counts zero; a success counts one per vulnerability of every dependency |
| NfrCollect.AuditSeveritiesInOrder | scripts/nfr_collect_raw.py:48-51 | a successful pass holds, in visiting order, the `severity or cvss_severity` bucket of every vulnerability of every dependency |
| NfrCollect.PipAuditCountsPerBucket | scripts/nfr_collect_raw.py:44-53 | each bucket of a parsed report counts exactly the vulnerabilities, across all dependencies, whose `severity or cvss_severity` lands in it |
| NfrCollect.PipAuditWithoutDependencies | scripts/nfr_collect_raw.py:48 | a report without dependencies counts zero everywhere |

## Left out

- HTTP servers, body reading, health probes and other routes: I/O plumbing. Routes are modelled over an already-read body (`BodyRead`).
- React state, rendering and `fetch` in the console, and DOM code in `web/app.js`: UI.
- `Arc<Mutex<…>>` locking and `lock_poisoned`: concurrency. The stores are plain maps and sequences.
- `serde_json` serialisation and the `DefaultHasher` request hash: a `requestHash` parameter that may fail.
- `Utc::now`, `Uuid::now_v7`, `crypto.randomUUID` and faker ids: parameters (`Deps.now`, `Draws`, the random session id).
- The invariant engine, the handlers and the event factory: parameters of `Deps`. The simple event factory itself is modelled.
- Floating point:
  - the harness's `mulberry32` and `computeScenarioSamples` are a `samplesOf` parameter;
  - `Math.round` and `Number` coercion of numeric fields are a `parseNumber` parameter;
  - the NFR float gates (regression_pct, success_rate, error_rate) enter the gate only as a list of findings;
  - `to_float` and `stability_rate` are not checked by any contract.
- LatencyPercentile.Percentile: the rank `Math.ceil((target / 100) * n)` is computed exactly, not in floating point. The two agree at the harness's targets 50, 95 and 99, but not for every target (target 7 with 100 samples gives rank 8 in floating point and 7 exactly).
- NfrNormalize.ToInt: string to number parsing is a `parse` parameter, because Python's float syntax is not modelled.
- NfrCollect.SeverityBucket: `str()` of floats, lists and dicts is not rendered, and lower-casing is ASCII only. None of those texts can name a bucket.
- StatusIntegrity.NormalizeStatus: lower-casing is ASCII only, while JavaScript's `toLowerCase` also maps other letters, for example U+212A KELVIN SIGN to `k`. A status spelled with such a letter (`bac\u212Alog`) is skipped as backlog by the script but reported as a missing file by the model. Unicode case tables are not modelled.
- Infinities and NaN in the NFR scripts: not modelled.
- File I/O, git and clocks:
  - the harness's artifact write, `getArtifact`, `normalizeGitCommit`, run-id regex and timings;
  - JSON loading in the NFR scripts, including `load_json` failures on missing files;
  - the burn-in and backup drill in the raw collector.
- StatusIntegrity.VerifyStatusIntegrity:
  - the `story_location` scalar lookup is a `storyLocationOf` parameter;
  - each story file's `Status:` line is given pre-extracted in the file map;
  - `path.join` is replaced by the file name `<key>.md`;
  - mismatches are a set, so the localeCompare order of the printed list and the path field are not modelled.
- CorrelationKeys.SortedPair: JavaScript's default sort of two strings is modelled on UTF-16 code units, as in the engine.
- LatencyHarness.SortScenarios: `localeCompare` on scenario ids is modelled as UTF-16 code-unit order (`IdLe`), a fixed total order. Locale collation is not modelled; the ordering results hold for that order.
- The other test factories and Playwright specs. The specs are used only as evidence, and several assert behaviour no modelled file implements:
  - unsupported command types;
  - payload validation;
  - duplicate lineage;
  - preprocessing and extraction failure injection;
  - retry after rollback.
- JsValues: spreading a string or array into an object is not modelled; a spread of anything but an object adds no properties.
- The burn-in gate's three lookup paths omit the normaliser's `consecutive_successes` fallback. This is modelled as written, so a raw report that has only that key fails the gate.

## Findings

| source | as written | input that shows it | evidently intended | confidence | as-written member | corrected member |
|---|---|---|---|---|---|---|
| tests/support/fixtures/factories/document-import-command-factory.ts:105-112 | `...options.payload` is spread after the computed `correlation`, so a caller's `correlation` replaces the merged one wholesale, and the key-by-key merge at lines 105-111 never takes effect | `payload: { correlation: { detector: 'operator' } }` yields a correlation with no `pair_key`, `deterministic_key` or `source_import_command_id` | caller correlation fields override the computed defaults key by key, keeping the computed pair_key | not executed; the option type `Partial<ConfirmDuplicatePayload>` (lines 19-29, 46-51) requires all four correlation fields, so the input needs an untyped caller or a cast, and type-correct callers lose nothing | ImportCommandFactory.ConfirmDuplicateAsWritten, ImportCommandFactory.PartialCorrelationLosesPairKey | ImportCommandFactory.ConfirmDuplicateEnvelope, ImportCommandFactory.PartialCorrelationKeepsPairKey |
