/**
 * The append-only event log (`InMemoryEventStore`) and the reference event
 * factory (`SimpleEventFactory`), which turns one accepted command into one
 * event whose type names the command and, if any, the status it moved to.
 */
module EventStore {
  import opened Wrappers
  import opened CommandTypes
  import opened Commands
  import Text

  /** `append`: the log only grows, and the new events follow in their given order. */
  function Append(log: seq<EventEnvelope>, events: seq<EventEnvelope>): (r: seq<EventEnvelope>)
    ensures |r| == |log| + |events|
    ensures r[..|log|] == log
    ensures r[|log|..] == events
  {
    log + events
  }

  /** Two appends in a row leave the same log as one append of both batches. */
  lemma AppendTwice(log: seq<EventEnvelope>, a: seq<EventEnvelope>, b: seq<EventEnvelope>)
    ensures Append(Append(log, a), b) == Append(log, a + b)
  {
    assert Append(Append(log, a), b) == log + a + b;
  }

  const ProcessedSuffix: string := "Processed"
  const TransitionInfix: string := ":transition_to_"

  /** The event type for a command type and the target of its transition, if any. */
  function EventType(commandType: string, target: Option<SessionStatus>): string {
    match target
    case None => commandType + ProcessedSuffix
    case Some(to) => commandType + TransitionInfix + StatusDebugName(to)
  }

  /**
   * `build_events`: exactly one event, caused by the command, carrying the
   * command's session id and the outcome's delta. The event id and the
   * timestamp come from the id generator and the clock.
   */
  function BuildEvents(cmd: AnyCommand, outcome: CommandOutcome, eventId: Uuid, now: Timestamp)
    : (r: DomainResult<seq<EventEnvelope>>)
    ensures r.Ok? && |r.value| == 1
    ensures r.value[0].eventId == eventId && r.value[0].causedBy == CommandId(cmd)
    ensures r.value[0].timestamp == now
    ensures ParseEventType(r.value[0].eventType)
              == Some((KindOf(cmd), if outcome.transition.Some? then Some(outcome.transition.value.to) else None))
  {
    var target := if outcome.transition.Some? then Some(outcome.transition.value.to) else None;
    EventTypeRoundTrip(KindOf(cmd), target);
    var sessionJson := match SessionId(cmd) case None => JNull case Some(sid) => JString(sid);
    Ok([EventEnvelope(eventId, CommandId(cmd), EventType(CommandType(cmd), target), now,
                      JObject([("session_id", sessionJson), ("delta", outcome.stateDelta.data)]))])
  }

  function StatusNamed(name: string): (r: Option<SessionStatus>)
    ensures r.Some? ==> StatusDebugName(r.value) == name
  {
    if name == "Created" then Some(Created)
    else if name == "Processing" then Some(Processing)
    else if name == "Review" then Some(Review)
    else if name == "Validated" then Some(Validated)
    else if name == "Exported" then Some(Exported)
    else if name == "Locked" then Some(Locked)
    else None
  }

  /** Reads an event type back into the command kind and the transition target. */
  function ParseEventType(eventType: string): (r: Option<(CommandKind, Option<SessionStatus>)>)
    ensures r.Some? ==> EventType(TypeName(r.value.0), r.value.1) == eventType
  {
    match SplitEventType(eventType)
    case None => None
    case Some((name, target)) =>
      match KindNamed(name)
      case None => None
      case Some(k) => Some((k, target))
  }

  /** Separates an event type into the command-type text and the transition target. */
  function SplitEventType(eventType: string): (r: Option<(string, Option<SessionStatus>)>)
    ensures r.Some? ==> EventType(r.value.0, r.value.1) == eventType
  {
    var parts := Text.Split(eventType, ':');
    if |parts| == 1 then
      if Text.EndsWith(eventType, ProcessedSuffix) then
        var name := eventType[..|eventType| - |ProcessedSuffix|];
        assert eventType == name + ProcessedSuffix;
        Some((name, None))
      else None
    else if |parts| == 2 && |parts[1]| >= |TransitionInfix| - 1
            && parts[1][..|TransitionInfix| - 1] == TransitionInfix[1..] then
      match StatusNamed(parts[1][|TransitionInfix| - 1..])
      case Some(to) =>
        Text.JoinSplit(eventType, ':');
        assert eventType == parts[0] + [':'] + parts[1];
        assert parts[1] == TransitionInfix[1..] + StatusDebugName(to);
        Some((parts[0], Some(to)))
      case None => None
    else None
  }

  lemma TypeNameHasNoColon(k: CommandKind)
    ensures ':' !in TypeName(k)
  {
    match k
    case KCreateSession | KCreateCorrectionSession | KLockSession | KPinSession | KImportDocument | KConfirmDuplicate => NoColonInGroup1(k);
    case KApplyPreprocessing | KReprocessDocument | KRunExtraction | KReRunExtraction | KAssignFieldValue => NoColonInGroup2(k);
    case KLockField | KAddItemRow | KDeleteItemRow | KAssignItemValue => NoColonInGroup3(k);
    case KLockItemRow | KAddExtraRow | KAssignExtraValue | KAddAnchorRule => NoColonInGroup4(k);
    case KDisableAnchorRule | KAddDictionaryRule | KDisableDictionaryRule => NoColonInGroup5(k);
    case KResolveReviewTask | KSkipReviewTask | KBatchResolveField => NoColonInGroup6(k);
    case KRunValidation | KOverrideValidation | KExportSession => NoColonInGroup7(k);
  }

  lemma NoColonInGroup1(k: CommandKind)
    requires k.KCreateSession? || k.KCreateCorrectionSession? || k.KLockSession?
          || k.KPinSession? || k.KImportDocument? || k.KConfirmDuplicate?
    ensures ':' !in TypeName(k)
  {
  }

  lemma NoColonInGroup2(k: CommandKind)
    requires k.KApplyPreprocessing? || k.KReprocessDocument? || k.KRunExtraction?
          || k.KReRunExtraction? || k.KAssignFieldValue?
    ensures ':' !in TypeName(k)
  {
  }

  lemma NoColonInGroup3(k: CommandKind)
    requires k.KLockField? || k.KAddItemRow? || k.KDeleteItemRow?
          || k.KAssignItemValue?
    ensures ':' !in TypeName(k)
  {
  }

  lemma NoColonInGroup4(k: CommandKind)
    requires k.KLockItemRow? || k.KAddExtraRow? || k.KAssignExtraValue?
          || k.KAddAnchorRule?
    ensures ':' !in TypeName(k)
  {
  }

  lemma NoColonInGroup5(k: CommandKind)
    requires k.KDisableAnchorRule? || k.KAddDictionaryRule? || k.KDisableDictionaryRule?
    ensures ':' !in TypeName(k)
  {
  }

  lemma NoColonInGroup6(k: CommandKind)
    requires k.KResolveReviewTask? || k.KSkipReviewTask? || k.KBatchResolveField?
    ensures ':' !in TypeName(k)
  {
  }

  lemma NoColonInGroup7(k: CommandKind)
    requires k.KRunValidation? || k.KOverrideValidation? || k.KExportSession?
    ensures ':' !in TypeName(k)
  {
  }

  /** The event type determines the command kind and the transition target. */
  lemma EventTypeRoundTrip(k: CommandKind, target: Option<SessionStatus>)
    ensures ParseEventType(EventType(TypeName(k), target)) == Some((k, target))
  {
    TypeNameHasNoColon(k);
    TypeNameRoundTrip(k);
    match target
    case None => ProcessedRoundTrip(TypeName(k));
    case Some(to) => TransitionRoundTrip(TypeName(k), to);
  }

  lemma ProcessedRoundTrip(name: string)
    requires ':' !in name
    ensures SplitEventType(EventType(name, None)) == Some((name, None))
  {
    var e := name + ProcessedSuffix;
    assert ':' !in ProcessedSuffix;
    assert ':' !in e by {
      forall i | 0 <= i < |e| ensures e[i] != ':' {
        if i < |name| { assert e[i] == name[i]; } else { assert e[i] == ProcessedSuffix[i - |name|]; }
      }
    }
    Text.SplitOfPlain(e, ':');
    assert e[..|e| - |ProcessedSuffix|] == name;
  }

  lemma TransitionRoundTrip(name: string, to: SessionStatus)
    requires ':' !in name
    ensures SplitEventType(EventType(name, Some(to))) == Some((name, Some(to)))
  {
    var e := EventType(name, Some(to));
    var tail := TransitionInfix[1..] + StatusDebugName(to);
    TransitionTail(to);
    assert e == name + [':'] + tail;
    Text.SplitOfHead(name, tail, ':');
    Text.SplitOfPlain(tail, ':');
    assert Text.Split(e, ':') == [name, tail];
  }

  /** What follows the colon of a transition event type: no colon, the infix, then the status name. */
  lemma TransitionTail(to: SessionStatus)
    ensures var tail := TransitionInfix[1..] + StatusDebugName(to);
            && ':' !in tail
            && |tail| >= |TransitionInfix| - 1
            && tail[..|TransitionInfix| - 1] == TransitionInfix[1..]
            && StatusNamed(tail[|TransitionInfix| - 1..]) == Some(to)
  {
    var tail := TransitionInfix[1..] + StatusDebugName(to);
    assert ':' !in tail by {
      assert ':' !in TransitionInfix[1..];
      assert ':' !in StatusDebugName(to);
    }
    assert tail[|TransitionInfix| - 1..] == StatusDebugName(to);
    assert StatusNamed(StatusDebugName(to)) == Some(to);
  }

  /** Distinct (kind, target) pairs never share an event type. */
  lemma EventTypeInjective(k1: CommandKind, t1: Option<SessionStatus>, k2: CommandKind, t2: Option<SessionStatus>)
    requires EventType(TypeName(k1), t1) == EventType(TypeName(k2), t2)
    ensures k1 == k2 && t1 == t2
  {
    EventTypeRoundTrip(k1, t1);
    EventTypeRoundTrip(k2, t2);
  }
}
