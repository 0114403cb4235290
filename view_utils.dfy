/**
 * The API view utilities: validation of a JSON merge patch (RFC 7396) against a
 * serializer's field table, the shaping of error responses, the course-access guard
 * and the authentication decorator.
 *
 * The serializer is replaced by two plain inputs: its field table (name to read-only
 * flag) and the `errors` map that `is_valid()` leaves behind (empty when it is valid).
 * Values of the patch and serializer error lists are represented by the text that
 * `str.format` renders for them. `ugettext` is the identity.
 */
module ViewUtils {
  import opened Wrappers

  /** The serializer's fields: name to `read_only`. */
  type FieldTable = map<string, bool>

  /** A decoded merge patch: field name to the text of its proposed value. */
  type Patch = map<string, string>

  /** `serializer.errors`: field name to the text of its error list; empty when the data is valid. */
  type SerializerErrors = map<string, string>

  /** The JSON shapes that appear in response bodies. */
  datatype Json = Str(s: string) | Obj(members: map<string, Json>)

  datatype Response = Response(status: int, data: Json)

  /** Django's `ValidationError`: `messageDict` is present only when it was raised with a dict. */
  datatype ValidationError = ValidationError(messageDict: Option<map<string, seq<string>>>, messages: seq<string>)

  /** The exceptions that reach or leave the modelled code. */
  datatype Exception =
    | ApiException(statusCode: int, detail: string)
    | Http404
    | DjangoValidationError(error: ValidationError)
    | KeyError(key: string)
    | IndexError
    | OtherException(name: string)

  datatype FieldError = FieldError(developerMessage: string, userMessage: string)

  const NotPresentMessage := "This field is not present on this resource"
  const NotEditableMessage := "This field is not editable"
  const InvalidValueMessage := "This value is invalid."
  const NotFoundMessage := "Not found."
  const UnfulfilledMilestonesMessage :=
    "Cannot access content with unfulfilled pre-requisites or unpassed entrance exam."

  /** Django's NON_FIELD_ERRORS key. */
  const NonFieldErrors := "__all__"

  const NotPresent := FieldError(NotPresentMessage, NotPresentMessage)
  const NotEditable := FieldError(NotEditableMessage, NotEditableMessage)

  function InvalidValue(key: string, value: string, error: string): FieldError
  {
    FieldError("Value '" + value + "' is not valid for field '" + key + "': " + error, InvalidValueMessage)
  }

  /** The entries the first pass records for the keys in `keys`: unknown and read-only fields. */
  function SchemaErrors(fields: FieldTable, keys: set<string>): map<string, FieldError>
  {
    map k | k in keys && (k !in fields || fields[k]) :: if k !in fields then NotPresent else NotEditable
  }

  /** The entries the second pass records for the serializer errors named in `keys`. */
  function ValueErrors(patch: Patch, errors: SerializerErrors, keys: set<string>): map<string, FieldError>
    requires keys <= errors.Keys && keys <= patch.Keys
  {
    map k | k in keys :: InvalidValue(k, patch[k], errors[k])
  }

  /**
   * The report of `_validate_patch` when every serializer error names a patch key:
   * the second pass is written over the first, so it wins on a shared key.
   */
  function Report(fields: FieldTable, patch: Patch, errors: SerializerErrors): map<string, FieldError>
    requires errors.Keys <= patch.Keys
  {
    SchemaErrors(fields, patch.Keys) + ValueErrors(patch, errors, errors.Keys)
  }

  /** The keys of the report: the unknown, the read-only and the rejected keys of the patch. */
  lemma ReportKeys(fields: FieldTable, patch: Patch, errors: SerializerErrors)
    requires errors.Keys <= patch.Keys
    ensures Report(fields, patch, errors).Keys ==
              (set k | k in patch && k !in fields)
            + (set k | k in patch && k in fields && fields[k])
            + errors.Keys
    ensures Report(fields, patch, errors).Keys <= patch.Keys
  {
  }

  /** What the report says about one key of the patch, with a serializer error taking precedence. */
  lemma ReportAt(fields: FieldTable, patch: Patch, errors: SerializerErrors, k: string)
    requires errors.Keys <= patch.Keys && k in patch
    ensures var r := Report(fields, patch, errors);
            && (k in errors ==> k in r && r[k] == InvalidValue(k, patch[k], errors[k]))
            && (k !in errors && k !in fields ==> k in r && r[k] == NotPresent)
            && (k !in errors && k in fields && fields[k] ==> k in r && r[k] == NotEditable)
            && (k !in errors && k in fields && !fields[k] ==> k !in r)
  {
  }

  /** The patch is accepted exactly when the serializer is valid and every key names a writable field. */
  lemma ReportEmptyIff(fields: FieldTable, patch: Patch, errors: SerializerErrors)
    requires errors.Keys <= patch.Keys
    ensures Report(fields, patch, errors) == map[] <==>
              errors == map[] && forall k :: k in patch ==> k in fields && !fields[k]
  {
    var r := Report(fields, patch, errors);
    if r == map[] {
      forall k | k in patch ensures k in fields && !fields[k] {
        ReportAt(fields, patch, errors, k);
      }
      if errors != map[] {
        var k :| k in errors;
        ReportAt(fields, patch, errors, k);
      }
    } else {
      var k :| k in r;
      ReportKeys(fields, patch, errors);
    }
  }

  /**
   * `RetrievePatchAPIView._validate_patch`. Both passes visit every key, so all offending
   * fields are reported together; a serializer error on a key outside the patch makes
   * `patch[key]` raise KeyError.
   */
  method ValidatePatch(fields: FieldTable, patch: Patch, errors: SerializerErrors)
    returns (r: Result<map<string, FieldError>, Exception>)
    ensures r.Failure? <==> !(errors.Keys <= patch.Keys)
    ensures r.Failure? ==> r.error.KeyError? && r.error.key in errors && r.error.key !in patch
    ensures r.Success? ==> r.value == Report(fields, patch, errors)
  {
    var fieldErrors: map<string, FieldError> := map[];
    var todo := patch.Keys;
    while todo != {}
      invariant todo <= patch.Keys
      invariant fieldErrors == SchemaErrors(fields, patch.Keys - todo)
      decreases todo
    {
      var key :| key in todo;
      SchemaErrorsAdd(fields, patch.Keys - todo, key);
      if key !in fields {
        fieldErrors := fieldErrors[key := NotPresent];
      } else if fields[key] {
        fieldErrors := fieldErrors[key := NotEditable];
      }
      assert patch.Keys - (todo - {key}) == (patch.Keys - todo) + {key};
      todo := todo - {key};
    }
    assert patch.Keys - todo == patch.Keys;
    if errors == map[] {
      assert ValueErrors(patch, errors, errors.Keys) == map[];
      assert fieldErrors + map[] == fieldErrors;
      return Success(fieldErrors);
    }
    r := RecordValueErrors(fields, patch, errors, fieldErrors);
  }

  /** The second pass of `_validate_patch`: each serializer error is written over the first pass's entries. */
  method RecordValueErrors(fields: FieldTable, patch: Patch, errors: SerializerErrors, first: map<string, FieldError>)
    returns (r: Result<map<string, FieldError>, Exception>)
    requires first == SchemaErrors(fields, patch.Keys)
    ensures r.Failure? <==> !(errors.Keys <= patch.Keys)
    ensures r.Failure? ==> r.error.KeyError? && r.error.key in errors && r.error.key !in patch
    ensures r.Success? ==> r.value == Report(fields, patch, errors)
  {
    var fieldErrors := first;
    var pending := errors.Keys;
    while pending != {}
      invariant pending <= errors.Keys
      invariant errors.Keys - pending <= patch.Keys
      invariant fieldErrors == first + ValueErrors(patch, errors, errors.Keys - pending)
      decreases pending
    {
      var key :| key in pending;
      if key !in patch {
        return Failure(KeyError(key));
      }
      ValueErrorsAdd(fields, patch, errors, errors.Keys - pending, key);
      fieldErrors := fieldErrors[key := InvalidValue(key, patch[key], errors[key])];
      assert errors.Keys - (pending - {key}) == (errors.Keys - pending) + {key};
      pending := pending - {key};
    }
    assert errors.Keys - pending == errors.Keys;
    return Success(fieldErrors);
  }

  /** The first pass visiting one more key. */
  lemma SchemaErrorsAdd(fields: FieldTable, keys: set<string>, key: string)
    ensures SchemaErrors(fields, keys + {key}) ==
              if key !in fields then SchemaErrors(fields, keys)[key := NotPresent]
              else if fields[key] then SchemaErrors(fields, keys)[key := NotEditable]
              else SchemaErrors(fields, keys)
  {
  }

  /** The second pass recording one more serializer error over the first pass's entries. */
  lemma ValueErrorsAdd(fields: FieldTable, patch: Patch, errors: SerializerErrors, keys: set<string>, key: string)
    requires keys <= errors.Keys && keys <= patch.Keys && key in errors && key in patch
    ensures SchemaErrors(fields, patch.Keys) + ValueErrors(patch, errors, keys + {key}) ==
              (SchemaErrors(fields, patch.Keys) + ValueErrors(patch, errors, keys))[key := InvalidValue(key, patch[key], errors[key])]
  {
  }

  function FieldErrorJson(e: FieldError): Json
  {
    Obj(map["developer_message" := Str(e.developerMessage), "user_message" := Str(e.userMessage)])
  }

  function FieldErrorsJson(report: map<string, FieldError>): (j: Json)
    ensures j.Obj? && j.members.Keys == report.Keys
    ensures forall k :: k in report ==> j.members[k] == FieldErrorJson(report[k])
  {
    Obj(map k | k in report :: FieldErrorJson(report[k]))
  }

  /** What the PATCH handler does: answer with a response, or hand over to `partial_update`. */
  datatype PatchOutcome = Raised(error: Exception) | Respond(response: Response) | PartialUpdate

  /**
   * `RetrievePatchAPIView.patch`: the update is applied only when the report is empty;
   * otherwise the whole report is returned with status 400 and nothing is applied.
   */
  method HandlePatch(fields: FieldTable, patch: Patch, errors: SerializerErrors) returns (out: PatchOutcome)
    ensures out.Raised? <==> !(errors.Keys <= patch.Keys)
    ensures out.Raised? ==> out.error.KeyError? && out.error.key in errors && out.error.key !in patch
    ensures out.PartialUpdate? <==> errors.Keys <= patch.Keys && Report(fields, patch, errors) == map[]
    ensures out.Respond? ==>
              && errors.Keys <= patch.Keys
              && Report(fields, patch, errors) != map[]
              && out.response.status == 400
              && out.response.data == Obj(map["field_errors" := FieldErrorsJson(Report(fields, patch, errors))])
  {
    var validated := ValidatePatch(fields, patch, errors);
    if validated.Failure? {
      return Raised(validated.error);
    }
    var fieldErrors := validated.value;
    if fieldErrors != map[] {
      return Respond(Response(400, Obj(map["field_errors" := FieldErrorsJson(fieldErrors)])));
    }
    return PartialUpdate;
  }

  /** `DeveloperErrorViewMixin.make_error_response`. */
  function MakeErrorResponse(status: int, developerMessage: string): (r: Response)
    ensures r.status == status
    ensures r.data.Obj? && r.data.members.Keys == {"developer_message"}
    ensures r.data.members["developer_message"] == Str(developerMessage)
  {
    Response(status, Obj(map["developer_message" := Str(developerMessage)]))
  }

  /**
   * The response `make_validation_error_response` builds: status 400; with a message dict,
   * the first non-field message becomes `developer_message` and every other field maps to
   * its first message under `field_errors`, which is left out when no other field remains;
   * without one, the first message. An empty message list raises IndexError.
   */
  function ValidationErrorResponse(e: ValidationError): (r: Result<Response, Exception>)
    ensures r.Success? ==> r.value.status == 400 && r.value.data.Obj?
    ensures r.Failure? ==> r.error == IndexError
    ensures e.messageDict.None? ==>
              && (r.Success? <==> |e.messages| > 0)
              && (r.Success? ==> r.value == MakeErrorResponse(400, e.messages[0]))
    ensures e.messageDict.Some? ==>
              var d := e.messageDict.value;
              && (r.Success? <==> forall f :: f in d && f != NonFieldErrors ==> |d[f]| > 0)
              && (r.Success? ==>
                    var body := r.value.data.members;
                    && body.Keys <= {"developer_message", "field_errors"}
                    && ("developer_message" in body <==> NonFieldErrors in d && |d[NonFieldErrors]| > 0)
                    && ("developer_message" in body ==> body["developer_message"] == Str(d[NonFieldErrors][0]))
                    && ("field_errors" in body <==> exists f :: f in d && f != NonFieldErrors)
                    && ("field_errors" in body ==>
                          && body["field_errors"].Obj?
                          && body["field_errors"].members.Keys == d.Keys - {NonFieldErrors}
                          && forall f :: f in d && f != NonFieldErrors ==>
                               body["field_errors"].members[f] == Obj(map["developer_message" := Str(d[f][0])])))
  {
    match e.messageDict
    case Some(d) =>
      var rest := d - {NonFieldErrors};
      var developer: map<string, Json> :=
        if NonFieldErrors in d && |d[NonFieldErrors]| > 0
        then map["developer_message" := Str(d[NonFieldErrors][0])] else map[];
      assert forall f :: f in d && f != NonFieldErrors ==> f in rest;
      if rest == map[] then
        Success(Response(400, Obj(developer)))
      else if exists f :: f in rest && |rest[f]| == 0 then
        Failure(IndexError)
      else
        var fieldErrors := Obj(map f | f in rest :: Obj(map["developer_message" := Str(rest[f][0])]));
        Success(Response(400, Obj(developer["field_errors" := fieldErrors])))
    case None =>
      if |e.messages| == 0 then Failure(IndexError) else Success(MakeErrorResponse(400, e.messages[0]))
  }

  /**
   * `DeveloperErrorViewMixin.make_validation_error_response`, step by step: the dict is
   * copied, the non-field list popped, and the response object filled in.
   */
  method MakeValidationErrorResponse(e: ValidationError) returns (r: Result<Response, Exception>)
    ensures r == ValidationErrorResponse(e)
  {
    if e.messageDict.Some? {
      var responseObj: map<string, Json> := map[];
      var messageDict := e.messageDict.value;
      var nonFieldErrorList: Option<seq<string>> := None;
      if NonFieldErrors in messageDict {
        nonFieldErrorList := Some(messageDict[NonFieldErrors]);
        messageDict := messageDict - {NonFieldErrors};
      }
      assert messageDict == e.messageDict.value - {NonFieldErrors};
      if nonFieldErrorList.Some? && |nonFieldErrorList.value| > 0 {
        responseObj := responseObj["developer_message" := Str(nonFieldErrorList.value[0])];
      }
      if messageDict != map[] {
        if exists f :: f in messageDict && |messageDict[f]| == 0 {
          return Failure(IndexError);
        }
        responseObj := responseObj["field_errors" :=
          Obj(map f | f in messageDict :: Obj(map["developer_message" := Str(messageDict[f][0])]))];
      }
      return Success(Response(400, Obj(responseObj)));
    } else {
      if |e.messages| == 0 {
        return Failure(IndexError);
      }
      return Success(MakeErrorResponse(400, e.messages[0]));
    }
  }

  /**
   * `DeveloperErrorViewMixin.handle_exception`: an API exception keeps its own status,
   * Http404 becomes 404 "Not found.", a validation error becomes 400; anything else is
   * raised again (Failure with the same exception).
   */
  function HandleException(exc: Exception): (r: Result<Response, Exception>)
    ensures exc.ApiException? ==> r == Success(MakeErrorResponse(exc.statusCode, exc.detail))
    ensures exc.Http404? ==> r.Success? && r.value.status == 404 && r.value.data == Obj(map["developer_message" := Str(NotFoundMessage)])
    ensures exc.DjangoValidationError? ==> r == ValidationErrorResponse(exc.error)
    ensures exc.DjangoValidationError? && r.Success? ==> r.value.status == 400
    ensures !(exc.ApiException? || exc.Http404? || exc.DjangoValidationError?) ==> r == Failure(exc)
  {
    match exc
    case ApiException(code, detail) => Success(MakeErrorResponse(code, detail))
    case Http404 => Success(MakeErrorResponse(404, NotFoundMessage))
    case DjangoValidationError(error) => ValidationErrorResponse(error)
    case _ => Failure(exc)
  }

  /** What the access-checked endpoint does: run the wrapped view with the course, answer, or raise. */
  datatype AccessOutcome<C> = Delegate(course: C) | AccessResponse(response: Response) | AccessRaised(error: Exception)

  /**
   * The branch inside `view_course_access`: `lookup` is what `get_course_with_access`
   * returned (None when it raised Http404), `unfulfilledMilestones` what
   * `any_unfulfilled_milestones` answers.
   */
  function ViewCourseAccess<C>(lookup: Option<C>, checkForMilestones: bool, unfulfilledMilestones: bool)
    : (r: AccessOutcome<C>)
    ensures lookup.Some? <==> r.Delegate?
    ensures lookup.Some? ==> r.course == lookup.value
    ensures r.AccessResponse? <==> lookup.None? && checkForMilestones && unfulfilledMilestones
    ensures r.AccessResponse? ==> r.response.status == 204 && r.response.data == Obj(map["developer_message" := Str(UnfulfilledMilestonesMessage)])
    ensures r.AccessRaised? <==> lookup.None? && !(checkForMilestones && unfulfilledMilestones)
    ensures r.AccessRaised? ==> r.error == Http404
  {
    match lookup
    case Some(course) => Delegate(course)
    case None =>
      if checkForMilestones && unfulfilledMilestones then
        AccessResponse(Response(204, Obj(map["developer_message" := Str(UnfulfilledMilestonesMessage)])))
      else
        AccessRaised(Http404)
  }

  datatype AuthenticationClass = OAuth2AuthenticationAllowInactiveUser | SessionAuthenticationAllowInactiveUser

  datatype PermissionClass = IsAuthenticatedOrDebug | IsUserInUrl

  /** A view function or class, seen through the two attributes the decorator sets. */
  class Endpoint {
    var authenticationClasses: seq<AuthenticationClass>
    var permissionClasses: seq<PermissionClass>

    constructor ()
      ensures authenticationClasses == [] && permissionClasses == []
    {
      authenticationClasses := [];
      permissionClasses := [];
    }
  }

  /**
   * `view_auth_classes(is_user)` applied to `target`: OAuth2 then session authentication;
   * IsAuthenticatedOrDebug always, IsUserInUrl after it exactly when `isUser`. Earlier
   * values of both attributes are replaced and the same object is returned.
   */
  method ViewAuthClasses(isUser: bool, target: Endpoint) returns (r: Endpoint)
    modifies target
    ensures r == target
    ensures target.authenticationClasses == [OAuth2AuthenticationAllowInactiveUser, SessionAuthenticationAllowInactiveUser]
    ensures |target.permissionClasses| >= 1 && target.permissionClasses[0] == IsAuthenticatedOrDebug
    ensures IsUserInUrl in target.permissionClasses <==> isUser
    ensures target.permissionClasses == if isUser then [IsAuthenticatedOrDebug, IsUserInUrl] else [IsAuthenticatedOrDebug]
  {
    target.authenticationClasses := [OAuth2AuthenticationAllowInactiveUser, SessionAuthenticationAllowInactiveUser];
    target.permissionClasses := [IsAuthenticatedOrDebug];
    if isUser {
      target.permissionClasses := target.permissionClasses + [IsUserInUrl];
    }
    return target;
  }

  /**
   * The scenario of two simultaneous violations: a read-only `id` and a `name` whose
   * value the serializer rejects are both reported, each with its own message.
   */
  lemma TwoViolationsReported(blank: string)
    ensures var fields := map["name" := false, "id" := true];
            var patch := map["id" := "x", "name" := ""];
            var errors := map["name" := blank];
            var r := Report(fields, patch, errors);
            && r.Keys == {"id", "name"}
            && r["id"] == NotEditable
            && r["name"] == InvalidValue("name", "", blank)
  {
    var fields := map["name" := false, "id" := true];
    var patch := map["id" := "x", "name" := ""];
    var errors := map["name" := blank];
    ReportKeys(fields, patch, errors);
    ReportAt(fields, patch, errors, "id");
    ReportAt(fields, patch, errors, "name");
  }
}
