/**
 * The test-support factory that builds ImportDocument and ConfirmDuplicate
 * command envelopes as plain JavaScript objects. Every value the factory
 * draws from its random generator or the clock is an input here.
 */
module ImportCommandFactory {
  import opened Wrappers
  import opened Text
  import opened JsValues
  import Envelope
  import CorrelationKeys

  /** The random and clock values one factory call may use. */
  datatype Draws = Draws(
    actorSuffix: string,
    commandUuid: string,
    now: string,
    sessionUuid: string,
    blobUuids: (string, string),
    fileHash: string,
    documentUuid: string,
    duplicateOfUuid: string,
    sourceImportUuid: string)

  /**
   * `createActor(overrides = {})`: a generated ops user, any given field
   * replacing the generated one. Null and undefined overrides spread nothing.
   */
  function CreateActor(overrides: JsValue, suffix: string): (r: JsValue)
    ensures r.Obj? && "id" in r.props && "role" in r.props
    ensures forall k :: k in SpreadProps(overrides) ==> k in r.props && r.props[k] == SpreadProps(overrides)[k]
    ensures "id" !in SpreadProps(overrides) ==> r.props["id"] == Str("ops-" + suffix)
    ensures "role" !in SpreadProps(overrides) ==> r.props["role"] == Str("ops-user")
  {
    Obj(Spread(map["id" := Str("ops-" + suffix), "role" := Str("ops-user")], SpreadProps(overrides)))
  }

  /** Reading a property of a built envelope (or of one of its objects). */
  function Field(v: JsValue, key: string): JsValue {
    OptGet(v, key)
  }

  /**
   * The envelope fields both factories fill the same way. `options` has
   * already been checked not to be null; an omitted (undefined) options
   * argument reads like the default `{}`.
   */
  function EnvelopeOf(options: JsValue, commandType: string, actor: JsValue, payload: JsValue, d: Draws): (r: JsValue)
    ensures r.Obj?
    ensures Field(r, "type") == Str(commandType) && Field(r, "payload") == payload && Field(r, "actor") == actor
    ensures Field(r, "command_id") == Coalesce(OptGet(options, "commandId"), Str(d.commandUuid))
    ensures Field(r, "timestamp") == Coalesce(OptGet(options, "timestamp"), Str(d.now))
  {
    Obj(map[
      "command_id" := Coalesce(OptGet(options, "commandId"), Str(d.commandUuid)),
      "type" := Str(commandType),
      "actor" := actor,
      "timestamp" := Coalesce(OptGet(options, "timestamp"), Str(d.now)),
      "payload" := payload])
  }

  /** `{ ...defaults, ...over }` read back: the override's keys win, the defaults fill the rest. */
  predicate MergedOver(merged: JsValue, defaults: map<string, JsValue>, over: map<string, JsValue>) {
    && merged.Obj?
    && (forall k :: k in over ==> Field(merged, k) == over[k])
    && (forall k :: k in defaults && k !in over ==> Field(merged, k) == defaults[k])
    && (forall k :: k in defaults ==> k in merged.props)
  }

  function Merge(defaults: map<string, JsValue>, over: JsValue): (r: JsValue)
    ensures MergedOver(r, defaults, SpreadProps(over))
  {
    Obj(Spread(defaults, SpreadProps(over)))
  }

  // ---------------------------------------------------------------------------
  // ImportDocument
  // ---------------------------------------------------------------------------

  function DefaultMetadata(fileHash: string): map<string, JsValue> {
    map["source" := Str("import"), "file_name" := Str("invoice-001.pdf"),
        "mime_type" := Str("application/pdf"), "file_hash" := Str(fileHash)]
  }

  function ImportPayload(given: JsValue, d: Draws): (r: JsValue)
    ensures r.Obj?
    ensures Field(r, "session_id") == Coalesce(OptGet(given, "session_id"), Str(d.sessionUuid))
    ensures Field(r, "blob_ids") == Coalesce(OptGet(given, "blob_ids"), Arr([Str(d.blobUuids.0), Str(d.blobUuids.1)]))
    ensures MergedOver(Field(r, "metadata"), DefaultMetadata(d.fileHash), SpreadProps(OptGet(given, "metadata")))
  {
    Obj(map["session_id" := Coalesce(OptGet(given, "session_id"), Str(d.sessionUuid)),
            "blob_ids" := Coalesce(OptGet(given, "blob_ids"), Arr([Str(d.blobUuids.0), Str(d.blobUuids.1)])),
            "metadata" := Merge(DefaultMetadata(d.fileHash), OptGet(given, "metadata"))])
  }

  /**
   * `createImportDocumentCommandEnvelope`: the session and blob ids fall back
   * only when null or undefined (an empty string is kept), and the caller's
   * metadata is merged key by key over the defaults. Passing null as the
   * options throws on the first property read.
   */
  function ImportDocumentEnvelope(options: JsValue, d: Draws): (r: Result<JsValue, string>)
    ensures r.Err? <==> options.Null?
    ensures r.Ok? ==>
              var given := OptGet(options, "payload");
              var payload := Field(r.value, "payload");
              && Field(r.value, "type") == Str("ImportDocument")
              && Field(payload, "session_id")
                   == (if Nullish(OptGet(given, "session_id")) then Str(d.sessionUuid) else OptGet(given, "session_id"))
              && Field(payload, "blob_ids")
                   == (if Nullish(OptGet(given, "blob_ids")) then Arr([Str(d.blobUuids.0), Str(d.blobUuids.1)])
                       else OptGet(given, "blob_ids"))
              && MergedOver(Field(payload, "metadata"), DefaultMetadata(d.fileHash), SpreadProps(OptGet(given, "metadata")))
  {
    if options.Null? then Err(GetProp(options, "actor").error)
    else
      var actor := CreateActor(OptGet(options, "actor"), d.actorSuffix);
      Ok(EnvelopeOf(options, "ImportDocument", actor, ImportPayload(OptGet(options, "payload"), d), d))
  }

  // ---------------------------------------------------------------------------
  // ConfirmDuplicate
  // ---------------------------------------------------------------------------

  /** The generated correlation: sorted-pair keys, a fresh source id, the hash detector. */
  function DefaultCorrelation(sessionId: JsValue, documentId: JsValue, duplicateOfId: JsValue,
                              sourceImportUuid: string): map<string, JsValue> {
    var doc, dup := ToJsString(documentId), ToJsString(duplicateOfId);
    map["pair_key" := Str(CorrelationKeys.PairKey(doc, dup)),
        "deterministic_key" := Str(CorrelationKeys.DeterministicKey(ToJsString(sessionId), doc, dup)),
        "source_import_command_id" := Str(sourceImportUuid),
        "detector" := Str("hash")]
  }

  /** The three ids after their `??` fallbacks. */
  function DuplicateIdsOf(given: JsValue, d: Draws): (JsValue, JsValue, JsValue) {
    (Coalesce(OptGet(given, "session_id"), Str(d.sessionUuid)),
     Coalesce(OptGet(given, "document_id"), Str(d.documentUuid)),
     Coalesce(OptGet(given, "duplicate_of_document_id"), Str(d.duplicateOfUuid)))
  }

  function CorrelationDefaults(given: JsValue, d: Draws): map<string, JsValue> {
    var ids := DuplicateIdsOf(given, d);
    DefaultCorrelation(ids.0, ids.1, ids.2, d.sourceImportUuid)
  }

  /** The payload fields the factory computes, before any caller payload is spread. */
  function ComputedPayload(given: JsValue, d: Draws): (r: map<string, JsValue>)
    ensures "correlation" in r
    ensures MergedOver(r["correlation"], CorrelationDefaults(given, d), SpreadProps(OptGet(given, "correlation")))
    ensures "correlation" !in SpreadProps(given) ==> r["correlation"] == Obj(CorrelationDefaults(given, d))
  {
    var ids := DuplicateIdsOf(given, d);
    map["session_id" := ids.0, "document_id" := ids.1, "duplicate_of_document_id" := ids.2,
        "correlation" := Merge(CorrelationDefaults(given, d), OptGet(given, "correlation"))]
  }

  /** `{ ...computed, ...options.payload }`. */
  function AsWrittenPayload(given: JsValue, d: Draws): (r: JsValue)
    ensures r.Obj?
    ensures forall k :: k in SpreadProps(given) ==> Field(r, k) == SpreadProps(given)[k]
    ensures "correlation" !in SpreadProps(given) ==> Field(r, "correlation") == Obj(CorrelationDefaults(given, d))
  {
    Obj(Spread(ComputedPayload(given, d), SpreadProps(given)))
  }

  /** `Field` on an object literal: the property when present, `undefined` otherwise. */
  lemma FieldOfObj(props: map<string, JsValue>, k: string)
    ensures Field(Obj(props), k) == if k in props then props[k] else Undefined
  {
  }

  /**
   * `{ ...computed, ...options.payload, correlation: merged }`: the as-written
   * payload with its correlation put back to the merged one.
   */
  function CorrectedPayload(given: JsValue, d: Draws): (r: JsValue)
    ensures r.Obj?
    ensures forall k :: k in SpreadProps(given) && k != "correlation" ==> Field(r, k) == SpreadProps(given)[k]
    ensures MergedOver(Field(r, "correlation"), CorrelationDefaults(given, d), SpreadProps(OptGet(given, "correlation")))
    ensures forall k :: k != "correlation" ==> Field(r, k) == Field(AsWrittenPayload(given, d), k)
  {
    var written := AsWrittenPayload(given, d);
    var merged := ComputedPayload(given, d)["correlation"];
    var r := Obj(written.props["correlation" := merged]);
    FieldOfObj(r.props, "correlation");
    assert forall k :: k != "correlation" ==> Field(r, k) == Field(written, k) by {
      forall k | k != "correlation" ensures Field(r, k) == Field(written, k) {
        FieldOfObj(r.props, k);
        FieldOfObj(written.props, k);
      }
    }
    r
  }

  /**
   * `createConfirmDuplicateCommandEnvelope` as written: the caller's payload
   * is spread last, so a caller-supplied `correlation` replaces the merged
   * one wholesale, and the key-by-key merge never shows in the result.
   */
  function ConfirmDuplicateAsWritten(options: JsValue, d: Draws): (r: Result<JsValue, string>)
    ensures r.Err? <==> options.Null?
    ensures r.Ok? ==>
              var given := OptGet(options, "payload");
              var payload := Field(r.value, "payload");
              && Field(r.value, "type") == Str("ConfirmDuplicate")
              && payload.Obj?
              && (forall k :: k in SpreadProps(given) ==> Field(payload, k) == SpreadProps(given)[k])
              && ("correlation" !in SpreadProps(given) ==>
                    Field(payload, "correlation") == Obj(CorrelationDefaults(given, d)))
  {
    if options.Null? then Err(GetProp(options, "actor").error)
    else
      var actor := CreateActor(OptGet(options, "actor"), d.actorSuffix);
      Ok(EnvelopeOf(options, "ConfirmDuplicate", actor, AsWrittenPayload(OptGet(options, "payload"), d), d))
  }

  /**
   * The evidently intended factory: the caller's payload still overrides
   * every other field, but the correlation is the key-by-key merge of the
   * caller's correlation over the generated one.
   */
  function ConfirmDuplicateEnvelope(options: JsValue, d: Draws): (r: Result<JsValue, string>)
    ensures r.Err? <==> options.Null?
    ensures r.Ok? ==>
              var given := OptGet(options, "payload");
              var payload := Field(r.value, "payload");
              && Field(r.value, "type") == Str("ConfirmDuplicate")
              && payload.Obj?
              && (forall k :: k in SpreadProps(given) && k != "correlation" ==> Field(payload, k) == SpreadProps(given)[k])
              && MergedOver(Field(payload, "correlation"), CorrelationDefaults(given, d),
                            SpreadProps(OptGet(given, "correlation")))
  {
    if options.Null? then Err(GetProp(options, "actor").error)
    else
      var actor := CreateActor(OptGet(options, "actor"), d.actorSuffix);
      Ok(EnvelopeOf(options, "ConfirmDuplicate", actor, CorrectedPayload(OptGet(options, "payload"), d), d))
  }

  /** Options asking only for the operator detector. */
  function OperatorOnlyOptions(): JsValue {
    Obj(map["payload" := Obj(map["correlation" := Obj(map["detector" := Str("operator")])])])
  }

  /**
   * The as-written factory drops the generated keys as soon as a caller
   * passes any correlation: asking only for the operator detector yields a
   * correlation with no `pair_key`.
   */
  lemma PartialCorrelationLosesPairKey(d: Draws)
    ensures var written := Field(Field(ConfirmDuplicateAsWritten(OperatorOnlyOptions(), d).value, "payload"), "correlation");
            Field(written, "pair_key") == Undefined && Field(written, "detector") == Str("operator")
  {
    var caller := Obj(map["detector" := Str("operator")]);
    var given := Obj(map["correlation" := caller]);
    assert OptGet(OperatorOnlyOptions(), "payload") == given;
    assert SpreadProps(given)["correlation"] == caller;
  }

  /** The caller payload inside `OperatorOnlyOptions`. */
  function OperatorOnlyPayload(): JsValue {
    Obj(map["correlation" := Obj(map["detector" := Str("operator")])])
  }

  /** For those options the corrected correlation is the detector override merged over the defaults. */
  lemma OperatorOnlyMerge(d: Draws)
    ensures MergedOver(Field(Field(ConfirmDuplicateEnvelope(OperatorOnlyOptions(), d).value, "payload"), "correlation"),
                       CorrelationDefaults(OperatorOnlyPayload(), d), map["detector" := Str("operator")])
  {
    var given := OperatorOnlyPayload();
    assert OptGet(OperatorOnlyOptions(), "payload") == given;
    assert SpreadProps(OptGet(given, "correlation")) == map["detector" := Str("operator")];
  }

  /** The corrected factory keeps the generated `pair_key` and the caller's detector for the same options. */
  lemma PartialCorrelationKeepsPairKey(d: Draws)
    ensures var corrected := Field(Field(ConfirmDuplicateEnvelope(OperatorOnlyOptions(), d).value, "payload"), "correlation");
            Field(corrected, "pair_key").Str? && Field(corrected, "detector") == Str("operator")
  {
    OperatorOnlyMerge(d);
    DefaultsHavePairKey(OperatorOnlyPayload(), d);
    DetectorOverDefaults(Field(Field(ConfirmDuplicateEnvelope(OperatorOnlyOptions(), d).value, "payload"), "correlation"),
                         CorrelationDefaults(OperatorOnlyPayload(), d));
  }

  /** Merging only a detector over defaults that carry a string `pair_key`. */
  lemma DetectorOverDefaults(merged: JsValue, defaults: map<string, JsValue>)
    requires MergedOver(merged, defaults, map["detector" := Str("operator")])
    requires "pair_key" in defaults && defaults["pair_key"].Str?
    ensures Field(merged, "pair_key").Str? && Field(merged, "detector") == Str("operator")
  {
    MergedOverDefault(merged, defaults, map["detector" := Str("operator")], "pair_key");
  }

  /** The generated correlation always carries a string `pair_key`. */
  lemma DefaultsHavePairKey(given: JsValue, d: Draws)
    ensures "pair_key" in CorrelationDefaults(given, d) && CorrelationDefaults(given, d)["pair_key"].Str?
  {
  }

  /** A key the override leaves out reads as its default in the merge. */
  lemma MergedOverDefault(merged: JsValue, defaults: map<string, JsValue>, over: map<string, JsValue>, k: string)
    requires MergedOver(merged, defaults, over) && k in defaults && k !in over
    ensures Field(merged, k) == defaults[k]
  {
  }

  /** The correction changes nothing but the correlation, and nothing at all when no correlation is passed. */
  lemma CorrectionOnlyTouchesCorrelation(options: JsValue, d: Draws)
    requires !options.Null?
    ensures var written := Field(ConfirmDuplicateAsWritten(options, d).value, "payload");
            var corrected := Field(ConfirmDuplicateEnvelope(options, d).value, "payload");
            forall k :: k != "correlation" ==> Field(written, k) == Field(corrected, k)
    ensures "correlation" !in SpreadProps(OptGet(options, "payload")) ==>
              ConfirmDuplicateAsWritten(options, d) == ConfirmDuplicateEnvelope(options, d)
  {
    var given := OptGet(options, "payload");
    if "correlation" !in SpreadProps(given) {
      var written := AsWrittenPayload(given, d);
      var merged := ComputedPayload(given, d)["correlation"];
      assert written.props["correlation"] == merged;
      assert written.props["correlation" := merged] == written.props;
      assert CorrectedPayload(given, d) == written;
    }
  }

  /** The generated correlation does not depend on which of the two documents is the duplicate. */
  lemma DefaultCorrelationIgnoresOrder(sessionId: JsValue, a: JsValue, b: JsValue, source: string)
    ensures DefaultCorrelation(sessionId, a, b, source) == DefaultCorrelation(sessionId, b, a, source)
  {
    CorrelationKeys.KeysSymmetric(ToJsString(sessionId), ToJsString(a), ToJsString(b));
  }

  // ---------------------------------------------------------------------------
  // Factory envelopes at the front door
  // ---------------------------------------------------------------------------

  lemma EnvelopeOfValidates(options: JsValue, commandType: string, actor: JsValue, payload: JsValue, d: Draws)
    requires actor.Obj? && payload.Obj?
    ensures Envelope.ValidateCommandEnvelope(EnvelopeOf(options, commandType, actor, payload, d)) == Ok(Envelope.Valid)
  {
    var env := EnvelopeOf(options, commandType, actor, payload, d);
    forall f | f in Envelope.RequiredFields ensures !Envelope.Missing(env, f) {
    }
  }

  /** Every envelope the factories build passes the envelope validator, whatever the caller overrides. */
  lemma FactoryEnvelopesAreValid(options: JsValue, d: Draws)
    requires !options.Null?
    ensures Envelope.ValidateCommandEnvelope(ImportDocumentEnvelope(options, d).value) == Ok(Envelope.Valid)
    ensures Envelope.ValidateCommandEnvelope(ConfirmDuplicateAsWritten(options, d).value) == Ok(Envelope.Valid)
    ensures Envelope.ValidateCommandEnvelope(ConfirmDuplicateEnvelope(options, d).value) == Ok(Envelope.Valid)
  {
    var actor := CreateActor(OptGet(options, "actor"), d.actorSuffix);
    var given := OptGet(options, "payload");
    EnvelopeOfValidates(options, "ImportDocument", actor, ImportPayload(given, d), d);
    EnvelopeOfValidates(options, "ConfirmDuplicate", actor, AsWrittenPayload(given, d), d);
    EnvelopeOfValidates(options, "ConfirmDuplicate", actor, CorrectedPayload(given, d), d);
  }
}
