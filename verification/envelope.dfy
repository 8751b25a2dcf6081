/**
 * The JavaScript command-envelope front door: the presence-only envelope
 * validator shared by the command dispatcher and the dev server, the
 * dispatcher's 400/202 answer, and the two HTTP routes that wrap it.
 */
module Envelope {
  import opened Wrappers
  import opened JsValues

  const RequiredFields: seq<string> := ["command_id", "type", "actor", "timestamp", "payload"]

  datatype FieldIssue = FieldIssue(field: string, reason: string)

  datatype EnvelopeError = EnvelopeError(
    code: string,
    category: string,
    missingFields: seq<string>,
    details: seq<FieldIssue>)

  datatype Validation = Valid | Invalid(error: EnvelopeError)

  /** A field is present iff reading it does not give undefined. */
  predicate Missing(body: JsValue, field: string)
    requires !body.Null? && !body.Undefined?
  {
    GetProp(body, field) == Ok(Undefined)
  }

  /** `fields.filter(f => body[f] === undefined)`. */
  function MissingAmong(body: JsValue, fields: seq<string>): (r: seq<string>)
    requires !body.Null? && !body.Undefined?
    ensures |r| <= |fields|
  {
    if |fields| == 0 then []
    else (if Missing(body, fields[0]) then [fields[0]] else []) + MissingAmong(body, fields[1..])
  }

  /** The filter keeps exactly the missing fields. */
  lemma {:induction false} MissingAmongMembers(body: JsValue, fields: seq<string>)
    requires !body.Null? && !body.Undefined?
    ensures forall f :: f in MissingAmong(body, fields) <==> f in fields && Missing(body, f)
  {
    if |fields| > 0 {
      MissingAmongMembers(body, fields[1..]);
      assert fields == [fields[0]] + fields[1..];
    }
  }

  function RequiredIssues(fields: seq<string>): (r: seq<FieldIssue>)
    ensures |r| == |fields|
    ensures forall i :: 0 <= i < |fields| ==> r[i] == FieldIssue(fields[i], "required")
  {
    if |fields| == 0 then [] else [FieldIssue(fields[0], "required")] + RequiredIssues(fields[1..])
  }

  /**
   * `validateCommandEnvelope`: lists the required fields that are undefined,
   * in the fixed order, with one `required` detail each. It throws when the
   * body is null or undefined.
   */
  function ValidateCommandEnvelope(body: JsValue): (r: Result<Validation, string>)
    ensures r.Err? <==> body.Null? || body.Undefined?
    ensures r.Ok? ==>
              (r.value.Valid? <==> forall f :: f in RequiredFields ==> !Missing(body, f))
    ensures r.Ok? && r.value.Invalid? ==>
              var e := r.value.error;
              e.code == "CMD_ENVELOPE_VALIDATION_FAILED" && e.category == "validation"
              && |e.missingFields| >= 1
              && (forall f :: f in e.missingFields <==> f in RequiredFields && Missing(body, f))
              && |e.details| == |e.missingFields|
              && (forall i :: 0 <= i < |e.details| ==>
                    e.details[i] == FieldIssue(e.missingFields[i], "required"))
  {
    if body.Null? || body.Undefined? then
      GetProp(body, RequiredFields[0]).PropagateFailure()
    else
      var missing := MissingAmong(body, RequiredFields);
      MissingAmongMembers(body, RequiredFields);
      if |missing| == 0 then Ok(Valid)
      else
        assert missing[0] in missing;
        Ok(Invalid(EnvelopeError("CMD_ENVELOPE_VALIDATION_FAILED", "validation",
                                    missing, RequiredIssues(missing))))
  }

  /** Reference definition of the missing list: the five checks written out in order. */
  function MissingInOrder(body: JsValue): seq<string>
    requires !body.Null? && !body.Undefined?
  {
    (if Missing(body, "command_id") then ["command_id"] else [])
    + ((if Missing(body, "type") then ["type"] else [])
    + ((if Missing(body, "actor") then ["actor"] else [])
    + ((if Missing(body, "timestamp") then ["timestamp"] else [])
    + (if Missing(body, "payload") then ["payload"] else []))))
  }

  /** The reported missing list is exactly the undefined fields, in the fixed order. */
  lemma MissingFieldsInFixedOrder(body: JsValue)
    requires !body.Null? && !body.Undefined?
    ensures var r := ValidateCommandEnvelope(body);
            r.Ok? && (r.value.Valid? <==> MissingInOrder(body) == [])
            && (r.value.Invalid? ==> r.value.error.missingFields == MissingInOrder(body))
  {
    FilterOfRequired(body);
  }

  lemma FilterOfRequired(body: JsValue)
    requires !body.Null? && !body.Undefined?
    ensures MissingAmong(body, RequiredFields) == MissingInOrder(body)
  {
    var m5 := ["payload"];
    var m4 := ["timestamp"] + m5;
    var m3 := ["actor"] + m4;
    var m2 := ["type"] + m3;
    assert ["command_id"] + m2 == RequiredFields;
    var t5 := if Missing(body, "payload") then ["payload"] else [];
    assert MissingAmong(body, m5) == t5 by {
      MissingAmongCons(body, "payload", []);
      assert MissingAmong(body, []) == [];
    }
    var t4 := (if Missing(body, "timestamp") then ["timestamp"] else []) + t5;
    assert MissingAmong(body, m4) == t4 by { MissingAmongCons(body, "timestamp", m5); }
    var t3 := (if Missing(body, "actor") then ["actor"] else []) + t4;
    assert MissingAmong(body, m3) == t3 by { MissingAmongCons(body, "actor", m4); }
    var t2 := (if Missing(body, "type") then ["type"] else []) + t3;
    assert MissingAmong(body, m2) == t2 by { MissingAmongCons(body, "type", m3); }
    MissingAmongCons(body, "command_id", m2);
  }

  lemma MissingAmongCons(body: JsValue, f: string, rest: seq<string>)
    requires !body.Null? && !body.Undefined?
    ensures MissingAmong(body, [f] + rest) == (if Missing(body, f) then [f] else []) + MissingAmong(body, rest)
  {
    assert ([f] + rest)[1..] == rest;
  }

  /** An empty envelope reports all five fields, in order. */
  lemma EmptyEnvelopeMissesAll()
    ensures ValidateCommandEnvelope(Obj(map[])) ==
            Ok(Invalid(EnvelopeError("CMD_ENVELOPE_VALIDATION_FAILED", "validation",
                                     RequiredFields,
                                     [FieldIssue("command_id", "required"), FieldIssue("type", "required"),
                                      FieldIssue("actor", "required"), FieldIssue("timestamp", "required"),
                                      FieldIssue("payload", "required")])))
  {
    var body := Obj(map[]);
    assert Missing(body, "command_id") && Missing(body, "type") && Missing(body, "actor")
           && Missing(body, "timestamp") && Missing(body, "payload");
    FilterOfRequired(body);
    assert MissingAmong(body, RequiredFields) == RequiredFields;
    var issues := RequiredIssues(RequiredFields);
    assert issues == [FieldIssue("command_id", "required"), FieldIssue("type", "required"),
                      FieldIssue("actor", "required"), FieldIssue("timestamp", "required"),
                      FieldIssue("payload", "required")];
  }

  /** Presence is "not undefined": null, false, 0 and "" all count as present. */
  lemma FalsyValuesArePresent(props: map<string, JsValue>)
    requires forall f :: f in RequiredFields ==> f in props && props[f] in {Null, Bool(false), Num(0), Str("")}
    ensures ValidateCommandEnvelope(Obj(props)) == Ok(Valid)
  {
  }

  /** A response: the HTTP status and the JSON body. */
  datatype Response = Response(statusCode: int, body: ResponseBody)

  datatype ErrorBody =
    | EnvelopeInvalid(envelopeError: EnvelopeError)
    | InvalidJson(code: string, category: string, message: string)

  datatype ResponseBody =
    | Rejected(error: ErrorBody, mutationApplied: bool, eventAppended: bool)
    | Accepted(accepted: bool, commandId: JsValue, mutationApplied: bool, eventAppended: bool)
    | AcceptedBare(accepted: bool, commandId: JsValue)

  /**
   * `createCommandDispatcher().dispatch`: 400 with the validation error and
   * both flags false, or 202 echoing the command id with both flags true.
   * Neither the type nor the payload's content is looked at.
   */
  function DispatchEnvelope(body: JsValue): (r: Result<Response, string>)
    ensures r.Err? <==> body.Null? || body.Undefined?
    ensures r.Ok? ==> (r.value.statusCode == 202 <==> ValidateCommandEnvelope(body) == Ok(Valid))
    ensures r.Ok? ==> r.value.statusCode in {202, 400}
    ensures r.Ok? && r.value.statusCode == 400 ==>
              r.value.body == Rejected(EnvelopeInvalid(ValidateCommandEnvelope(body).value.error), false, false)
    ensures r.Ok? && r.value.statusCode == 202 ==>
              r.value.body == Accepted(true, GetProp(body, "command_id").value, true, true)
  {
    match ValidateCommandEnvelope(body)
    case Err(m) => Err(m)
    case Ok(Invalid(e)) => Ok(Response(400, Rejected(EnvelopeInvalid(e), false, false)))
    case Ok(Valid) => Ok(Response(202, Accepted(true, GetProp(body, "command_id").value, true, true)))
  }

  /** What the body reader hands the route: a parsed value, or the reason it could not. */
  datatype BodyRead = ReadFailed(reason: string) | Parsed(value: JsValue)

  function InvalidJsonResponse(message: string): Response {
    Response(400, Rejected(InvalidJson("CMD_INVALID_JSON", "validation", message), false, false))
  }

  /** The local API server's dispatch route: the dispatcher's answer, or 400 CMD_INVALID_JSON. */
  function LocalApiDispatchRoute(read: BodyRead): (r: Response)
    ensures read.ReadFailed? ==> r == InvalidJsonResponse(read.reason)
    ensures read.Parsed? && DispatchEnvelope(read.value).Ok? ==> r == DispatchEnvelope(read.value).value
    ensures read.Parsed? && (read.value.Null? || read.value.Undefined?) ==>
              r.statusCode == 400 && r.body.Rejected? && r.body.error.InvalidJson?
  {
    match read
    case ReadFailed(reason) => InvalidJsonResponse(reason)
    case Parsed(v) =>
      match DispatchEnvelope(v)
      case Err(m) => InvalidJsonResponse(m)
      case Ok(resp) => resp
  }

  /**
   * The dev server's dispatch route: its own copy of the validator, 400 with
   * the error and both flags false, or 202 with only `accepted` and the id.
   */
  function DevServerDispatchRoute(read: BodyRead): (r: Response)
    ensures read.ReadFailed? ==> r == InvalidJsonResponse(read.reason)
    ensures r.statusCode in {202, 400}
    ensures r.statusCode == 202 ==>
              read.Parsed? && !read.value.Null? && !read.value.Undefined? && r.body == AcceptedBare(true, GetProp(read.value, "command_id").value)
  {
    match read
    case ReadFailed(reason) => InvalidJsonResponse(reason)
    case Parsed(v) =>
      match ValidateCommandEnvelope(v)
      case Err(m) => InvalidJsonResponse(m)
      case Ok(Invalid(e)) => Response(400, Rejected(EnvelopeInvalid(e), false, false))
      case Ok(Valid) => Response(202, AcceptedBare(true, GetProp(v, "command_id").value))
  }

  /**
   * The two servers agree on every status code and every error body; they
   * differ only in that the dev server's 202 body omits both flags.
   */
  lemma RoutesAgree(read: BodyRead)
    ensures LocalApiDispatchRoute(read).statusCode == DevServerDispatchRoute(read).statusCode
    ensures DevServerDispatchRoute(read).statusCode == 400 ==>
              LocalApiDispatchRoute(read) == DevServerDispatchRoute(read)
    ensures DevServerDispatchRoute(read).statusCode == 202 ==>
              var local := LocalApiDispatchRoute(read).body;
              var dev := DevServerDispatchRoute(read).body;
              local == Accepted(dev.accepted, dev.commandId, true, true)
  {
  }

  /** Any failure answer reports that nothing was mutated and no event appended. */
  lemma RejectionsApplyNothing(read: BodyRead)
    ensures LocalApiDispatchRoute(read).statusCode == 400 ==>
              var b := LocalApiDispatchRoute(read).body;
              b.Rejected? && !b.mutationApplied && !b.eventAppended
  {
  }
}
