/**
 * The closed command enum of the command layer (`AnyCommand`), with the
 * accessors every command DTO provides: id, type name, actor, timestamp and
 * the optional session the command is scoped to.
 */
module Commands {
  import opened Wrappers
  import opened CommandTypes

  /** The fields every command carries besides its payload. */
  datatype CommandHeader = CommandHeader(commandId: Uuid, actor: string, timestamp: Timestamp)

  /** One variant per command; the remaining fields are the variant's payload. */
  datatype AnyCommand =
    | CreateSession(header: CommandHeader, projectId: Uuid, schemaId: Uuid, sessionSource: string)
    | CreateCorrectionSession(header: CommandHeader, projectId: Uuid, schemaId: Uuid, baseSessionId: Uuid)
    | LockSession(header: CommandHeader, sessionId: Uuid, lockReason: Option<string>)
    | PinSession(header: CommandHeader, sessionId: Uuid, pinned: bool)
    | ImportDocument(header: CommandHeader, sessionId: Uuid, blobIds: seq<Uuid>, metadata: Option<Json>)
    | ConfirmDuplicate(header: CommandHeader, sessionId: Uuid, documentId: Uuid, duplicateOfDocumentId: Uuid)
    | ApplyPreprocessing(header: CommandHeader, sessionId: Uuid, pageId: Uuid, params: Json)
    | ReprocessDocument(header: CommandHeader, sessionId: Uuid, documentId: Uuid, params: Json)
    | RunExtraction(header: CommandHeader, sessionId: Uuid, engine: string, params: Json)
    | ReRunExtraction(header: CommandHeader, sessionId: Uuid, scope: string, targetId: Uuid, params: Json)
    | AssignFieldValue(header: CommandHeader, sessionId: Uuid, documentId: Uuid, schemaFieldId: Uuid,
                       rawValue: string, normalizedValue: Option<string>, source: SourceType, sourceRef: Json)
    | LockField(header: CommandHeader, sessionId: Uuid, fieldValueId: Uuid, locked: bool)
    | AddItemRow(header: CommandHeader, sessionId: Uuid, documentId: Uuid, rowIndex: int)
    | DeleteItemRow(header: CommandHeader, sessionId: Uuid, itemId: Uuid)
    | AssignItemValue(header: CommandHeader, sessionId: Uuid, itemId: Uuid, schemaFieldId: Uuid,
                      rawValue: string, normalizedValue: Option<string>, source: SourceType, sourceRef: Json)
    | LockItemRow(header: CommandHeader, sessionId: Uuid, itemId: Uuid, locked: bool)
    | AddExtraRow(header: CommandHeader, sessionId: Uuid, documentId: Uuid, tableName: string, rowIndex: int)
    | AssignExtraValue(header: CommandHeader, sessionId: Uuid, extraRowId: Uuid, schemaFieldId: Uuid,
                       rawValue: string, normalizedValue: Option<string>, source: SourceType, sourceRef: Json)
    | AddAnchorRule(header: CommandHeader, projectId: Uuid, schemaFieldId: Uuid, ruleJson: Json)
    | DisableAnchorRule(header: CommandHeader, projectId: Uuid, anchorId: Uuid, enabled: bool)
    | AddDictionaryRule(header: CommandHeader, projectId: Uuid, dictionaryScope: DictionaryScope,
                        matchType: MatchType, matchValue: string, replaceValue: string)
    | DisableDictionaryRule(header: CommandHeader, projectId: Uuid, dictionaryRuleId: Uuid, enabled: bool)
    | ResolveReviewTask(header: CommandHeader, sessionId: Uuid, reviewTaskId: Uuid, resolution: string)
    | SkipReviewTask(header: CommandHeader, sessionId: Uuid, reviewTaskId: Uuid, reason: string)
    | BatchResolveField(header: CommandHeader, sessionId: Uuid, fieldKey: string, action: string)
    | RunValidation(header: CommandHeader, sessionId: Uuid, ruleScope: ValidationRuleScope)
    | OverrideValidation(header: CommandHeader, sessionId: Uuid, validationResultId: Uuid, reason: string)
    | ExportSession(header: CommandHeader, sessionId: Uuid, format: ExportFormat, includeInVault: bool,
                    exportPath: Option<string>)

  /** The variant of a command, without its fields. */
  datatype CommandKind =
    | KCreateSession | KCreateCorrectionSession | KLockSession | KPinSession | KImportDocument
    | KConfirmDuplicate | KApplyPreprocessing | KReprocessDocument | KRunExtraction | KReRunExtraction
    | KAssignFieldValue | KLockField | KAddItemRow | KDeleteItemRow | KAssignItemValue | KLockItemRow
    | KAddExtraRow | KAssignExtraValue | KAddAnchorRule | KDisableAnchorRule | KAddDictionaryRule
    | KDisableDictionaryRule | KResolveReviewTask | KSkipReviewTask | KBatchResolveField
    | KRunValidation | KOverrideValidation | KExportSession

  function KindOf(c: AnyCommand): CommandKind {
    match c
    case CreateSession(_, _, _, _) => KCreateSession
    case CreateCorrectionSession(_, _, _, _) => KCreateCorrectionSession
    case LockSession(_, _, _) => KLockSession
    case PinSession(_, _, _) => KPinSession
    case ImportDocument(_, _, _, _) => KImportDocument
    case ConfirmDuplicate(_, _, _, _) => KConfirmDuplicate
    case ApplyPreprocessing(_, _, _, _) => KApplyPreprocessing
    case ReprocessDocument(_, _, _, _) => KReprocessDocument
    case RunExtraction(_, _, _, _) => KRunExtraction
    case ReRunExtraction(_, _, _, _, _) => KReRunExtraction
    case AssignFieldValue(_, _, _, _, _, _, _, _) => KAssignFieldValue
    case LockField(_, _, _, _) => KLockField
    case AddItemRow(_, _, _, _) => KAddItemRow
    case DeleteItemRow(_, _, _) => KDeleteItemRow
    case AssignItemValue(_, _, _, _, _, _, _, _) => KAssignItemValue
    case LockItemRow(_, _, _, _) => KLockItemRow
    case AddExtraRow(_, _, _, _, _) => KAddExtraRow
    case AssignExtraValue(_, _, _, _, _, _, _, _) => KAssignExtraValue
    case AddAnchorRule(_, _, _, _) => KAddAnchorRule
    case DisableAnchorRule(_, _, _, _) => KDisableAnchorRule
    case AddDictionaryRule(_, _, _, _, _, _) => KAddDictionaryRule
    case DisableDictionaryRule(_, _, _, _) => KDisableDictionaryRule
    case ResolveReviewTask(_, _, _, _) => KResolveReviewTask
    case SkipReviewTask(_, _, _, _) => KSkipReviewTask
    case BatchResolveField(_, _, _, _) => KBatchResolveField
    case RunValidation(_, _, _) => KRunValidation
    case OverrideValidation(_, _, _, _) => KOverrideValidation
    case ExportSession(_, _, _, _, _) => KExportSession
  }

  /** The fixed type literal of each variant: the variant's own name. */
  function TypeName(k: CommandKind): string {
    match k
    case KCreateSession => "CreateSession"
    case KCreateCorrectionSession => "CreateCorrectionSession"
    case KLockSession => "LockSession"
    case KPinSession => "PinSession"
    case KImportDocument => "ImportDocument"
    case KConfirmDuplicate => "ConfirmDuplicate"
    case KApplyPreprocessing => "ApplyPreprocessing"
    case KReprocessDocument => "ReprocessDocument"
    case KRunExtraction => "RunExtraction"
    case KReRunExtraction => "ReRunExtraction"
    case KAssignFieldValue => "AssignFieldValue"
    case KLockField => "LockField"
    case KAddItemRow => "AddItemRow"
    case KDeleteItemRow => "DeleteItemRow"
    case KAssignItemValue => "AssignItemValue"
    case KLockItemRow => "LockItemRow"
    case KAddExtraRow => "AddExtraRow"
    case KAssignExtraValue => "AssignExtraValue"
    case KAddAnchorRule => "AddAnchorRule"
    case KDisableAnchorRule => "DisableAnchorRule"
    case KAddDictionaryRule => "AddDictionaryRule"
    case KDisableDictionaryRule => "DisableDictionaryRule"
    case KResolveReviewTask => "ResolveReviewTask"
    case KSkipReviewTask => "SkipReviewTask"
    case KBatchResolveField => "BatchResolveField"
    case KRunValidation => "RunValidation"
    case KOverrideValidation => "OverrideValidation"
    case KExportSession => "ExportSession"
  }

  /** Every kind, in declaration order. */
  const AllKinds: seq<CommandKind> := [
    KCreateSession, KCreateCorrectionSession, KLockSession, KPinSession, KImportDocument,
    KConfirmDuplicate, KApplyPreprocessing, KReprocessDocument, KRunExtraction, KReRunExtraction,
    KAssignFieldValue, KLockField, KAddItemRow, KDeleteItemRow, KAssignItemValue, KLockItemRow,
    KAddExtraRow, KAssignExtraValue, KAddAnchorRule, KDisableAnchorRule, KAddDictionaryRule,
    KDisableDictionaryRule, KResolveReviewTask, KSkipReviewTask, KBatchResolveField,
    KRunValidation, KOverrideValidation, KExportSession]

  /** The kind whose type literal is `name`, if any: the inverse of `TypeName`. */
  function KindNamed(name: string): (r: Option<CommandKind>)
    ensures r.Some? ==> TypeName(r.value) == name
  {
    KindNamedIn(AllKinds, name)
  }

  function KindNamedIn(kinds: seq<CommandKind>, name: string): (r: Option<CommandKind>)
    ensures r.Some? ==> r.value in kinds && TypeName(r.value) == name
    ensures r.None? ==> forall k :: k in kinds ==> TypeName(k) != name
  {
    if |kinds| == 0 then None
    else if TypeName(kinds[0]) == name then Some(kinds[0])
    else KindNamedIn(kinds[1..], name)
  }

  /** `command_type()`: the type literal of the command's variant. */
  function CommandType(c: AnyCommand): string {
    TypeName(KindOf(c))
  }

  /** The kinds whose commands are not scoped to a session. */
  predicate IsSessionless(k: CommandKind) {
    k in {KCreateSession, KCreateCorrectionSession, KAddAnchorRule, KDisableAnchorRule,
          KAddDictionaryRule, KDisableDictionaryRule}
  }

  /** `session_id()`: the payload's session id, for every variant that has one. */
  function SessionId(c: AnyCommand): (r: Option<Uuid>)
    ensures r.None? <==> IsSessionless(KindOf(c))
    ensures r.Some? ==> r.value == c.sessionId
  {
    if c.CreateSession? || c.CreateCorrectionSession? || c.AddAnchorRule? || c.DisableAnchorRule?
       || c.AddDictionaryRule? || c.DisableDictionaryRule?
    then None
    else Some(c.sessionId)
  }

  function CommandId(c: AnyCommand): Uuid {
    c.header.commandId
  }

  function Actor(c: AnyCommand): string {
    c.header.actor
  }

  /** The type name determines the kind: `TypeName` has an inverse, so it is injective. */
  lemma TypeNameRoundTrip(k: CommandKind)
    ensures KindNamed(TypeName(k)) == Some(k)
  {
    var r := KindNamed(TypeName(k));
    assert k in AllKinds;
    assert r.Some?;
    TypeNameInjective(r.value, k);
  }

  /** The length, first and eighth character of a name: enough to tell the type literals apart. */
  function NameKey(name: string): (int, char, char) {
    if |name| < 8 then (|name|, ' ', ' ') else (|name|, name[0], name[7])
  }

  function KindOfKey(key: (int, char, char)): Option<CommandKind> {
    match key
    case (13, 'C', 'e') => Some(KCreateSession)
    case (23, 'C', 'o') => Some(KCreateCorrectionSession)
    case (11, 'L', 's') => Some(KLockSession)
    case (10, 'P', 'i') => Some(KPinSession)
    case (14, 'I', 'o') => Some(KImportDocument)
    case (16, 'C', 'D') => Some(KConfirmDuplicate)
    case (18, 'A', 'e') => Some(KApplyPreprocessing)
    case (17, 'R', 's') => Some(KReprocessDocument)
    case (13, 'R', 'a') => Some(KRunExtraction)
    case (15, 'R', 't') => Some(KReRunExtraction)
    case (16, 'A', 'i') => Some(KAssignFieldValue)
    case (9, 'L', 'l') => Some(KLockField)
    case (10, 'A', 'R') => Some(KAddItemRow)
    case (13, 'D', 't') => Some(KDeleteItemRow)
    case (15, 'A', 't') => Some(KAssignItemValue)
    case (11, 'L', 'm') => Some(KLockItemRow)
    case (11, 'A', 'a') => Some(KAddExtraRow)
    case (16, 'A', 'x') => Some(KAssignExtraValue)
    case (13, 'A', 'o') => Some(KAddAnchorRule)
    case (17, 'D', 'A') => Some(KDisableAnchorRule)
    case (17, 'A', 'i') => Some(KAddDictionaryRule)
    case (21, 'D', 'D') => Some(KDisableDictionaryRule)
    case (17, 'R', 'R') => Some(KResolveReviewTask)
    case (14, 'S', 'i') => Some(KSkipReviewTask)
    case (17, 'B', 's') => Some(KBatchResolveField)
    case (13, 'R', 'd') => Some(KRunValidation)
    case (18, 'O', 'e') => Some(KOverrideValidation)
    case (13, 'E', 'e') => Some(KExportSession)
    case _ => None
  }

  lemma TypeNameKey(k: CommandKind)
    ensures KindOfKey(NameKey(TypeName(k))) == Some(k)
  {
    match k
    case KCreateSession | KCreateCorrectionSession | KLockSession | KPinSession | KImportDocument | KConfirmDuplicate => TypeNameKeyOfGroup1(k);
    case KApplyPreprocessing | KReprocessDocument | KRunExtraction | KReRunExtraction | KAssignFieldValue => TypeNameKeyOfGroup2(k);
    case KLockField | KAddItemRow | KDeleteItemRow | KAssignItemValue => TypeNameKeyOfGroup3(k);
    case KLockItemRow | KAddExtraRow | KAssignExtraValue | KAddAnchorRule => TypeNameKeyOfGroup4(k);
    case KDisableAnchorRule | KAddDictionaryRule | KDisableDictionaryRule => TypeNameKeyOfGroup5(k);
    case KResolveReviewTask | KSkipReviewTask | KBatchResolveField => TypeNameKeyOfGroup6(k);
    case KRunValidation | KOverrideValidation | KExportSession => TypeNameKeyOfGroup7(k);
  }

  lemma TypeNameKeyOfGroup1(k: CommandKind)
    requires k.KCreateSession? || k.KCreateCorrectionSession? || k.KLockSession?
          || k.KPinSession? || k.KImportDocument? || k.KConfirmDuplicate?
    ensures KindOfKey(NameKey(TypeName(k))) == Some(k)
  {
  }

  lemma TypeNameKeyOfGroup2(k: CommandKind)
    requires k.KApplyPreprocessing? || k.KReprocessDocument? || k.KRunExtraction?
          || k.KReRunExtraction? || k.KAssignFieldValue?
    ensures KindOfKey(NameKey(TypeName(k))) == Some(k)
  {
  }

  lemma TypeNameKeyOfGroup3(k: CommandKind)
    requires k.KLockField? || k.KAddItemRow? || k.KDeleteItemRow?
          || k.KAssignItemValue?
    ensures KindOfKey(NameKey(TypeName(k))) == Some(k)
  {
  }

  lemma TypeNameKeyOfGroup4(k: CommandKind)
    requires k.KLockItemRow? || k.KAddExtraRow? || k.KAssignExtraValue?
          || k.KAddAnchorRule?
    ensures KindOfKey(NameKey(TypeName(k))) == Some(k)
  {
  }

  lemma TypeNameKeyOfGroup5(k: CommandKind)
    requires k.KDisableAnchorRule? || k.KAddDictionaryRule? || k.KDisableDictionaryRule?
    ensures KindOfKey(NameKey(TypeName(k))) == Some(k)
  {
  }

  lemma TypeNameKeyOfGroup6(k: CommandKind)
    requires k.KResolveReviewTask? || k.KSkipReviewTask? || k.KBatchResolveField?
    ensures KindOfKey(NameKey(TypeName(k))) == Some(k)
  {
  }

  lemma TypeNameKeyOfGroup7(k: CommandKind)
    requires k.KRunValidation? || k.KOverrideValidation? || k.KExportSession?
    ensures KindOfKey(NameKey(TypeName(k))) == Some(k)
  {
  }

  /** Two kinds with the same type literal are the same kind. */
  lemma TypeNameInjective(a: CommandKind, b: CommandKind)
    requires TypeName(a) == TypeName(b)
    ensures a == b
  {
    TypeNameKey(a);
    TypeNameKey(b);
  }

  /** Commands of different variants have different `command_type()` values. */
  lemma CommandTypeInjective(c: AnyCommand, d: AnyCommand)
    ensures CommandType(c) == CommandType(d) <==> KindOf(c) == KindOf(d)
  {
    if CommandType(c) == CommandType(d) {
      TypeNameInjective(KindOf(c), KindOf(d));
    }
  }
}
