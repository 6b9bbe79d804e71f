/**
 * The interest form of `components/forms/InterestForm.tsx`: the request
 * configuration for a property or a service, the validation rules handed to the
 * form library (the two regular expressions as scanners, each proved to accept
 * exactly what its pattern describes), the payload, and the status the submit
 * handler steps through. The HTTP response is a parameter.
 */
module InterestForm {
  import opened Wrappers
  import opened Strings
  import opened JsObject

  // ---------------------------------------------------------------------------
  // The request configuration
  // ---------------------------------------------------------------------------

  datatype RequestConfig = RequestConfig(kind: string, id: string, endpoint: string,
                                         defaultMessage: string, successMessage: string, titleText: string)

  const BaseUrl: string := "https://lag-immobiliers-api.souheib-riache.fr/api/v1"
  const PropertyEndpoint: string := BaseUrl + "/property-request"
  const ServiceEndpoint: string := BaseUrl + "/accompagniement-request"

  /** `createRequestConfig(type, id)`: one configuration per request type; any other type throws. */
  function CreateRequestConfig(kind: string, id: string): (r: Result<RequestConfig>)
    ensures r.Ok? <==> kind == "property" || kind == "service"
    ensures r.Ok? ==> r.value.kind == kind && r.value.id == id
    ensures r.Ok? ==> (r.value.endpoint == PropertyEndpoint <==> kind == "property")
    ensures r.Err? ==> r.message == "Unsupported request type: " + kind
  {
    if kind == "property" then
      Ok(RequestConfig(kind, id, PropertyEndpoint,
        "Bonjour, je suis intéressé(e) par ce bien. Pourriez\U{2011}vous m'envoyer sa fiche détaillée ?",
        "Merci de votre confiance. Un conseiller vous rappellera sous 24 h.",
        "Manifester mon intérêt pour ce bien"))
    else if kind == "service" then
      SuffixesDiffer(BaseUrl, "/accompagniement-request", "/property-request");
      Ok(RequestConfig(kind, id, ServiceEndpoint,
        "Bonjour, je souhaiterais en savoir plus sur vos services d'accompagnement.",
        "Merci pour votre demande. Notre équipe vous contactera rapidement.",
        "Demander un accompagnement"))
    else
      Err("Unsupported request type: " + kind)
  }

  /** Both endpoints are paths under the API's base URL. */
  lemma EndpointsUnderBase(kind: string, id: string)
    requires CreateRequestConfig(kind, id).Ok?
    ensures var e := CreateRequestConfig(kind, id).value.endpoint;
      |e| > |BaseUrl| && e[..|BaseUrl|] == BaseUrl && e[|BaseUrl|] == '/'
  {
    if kind == "property" {
      UnderBase(BaseUrl, "/property-request");
    } else {
      UnderBase(BaseUrl, "/accompagniement-request");
    }
  }

  lemma UnderBase(base: string, path: string)
    requires |path| > 0 && path[0] == '/'
    ensures var e := base + path; |e| > |base| && e[..|base|] == base && e[|base|] == '/'
  {
    assert (base + path)[..|base|] == base;
  }

  /** Paths that differ in their second character give different URLs under any base. */
  lemma SuffixesDiffer(base: string, x: string, y: string)
    requires |x| > 1 && |y| > 1 && x[1] != y[1]
    ensures base + x != base + y
  {
    assert (base + x)[|base| + 1] == x[1] && (base + y)[|base| + 1] == y[1];
  }

  // ---------------------------------------------------------------------------
  // Validation
  // ---------------------------------------------------------------------------

  /** `required`, then `minLength: 2` and `maxLength: 50`; the first rule broken gives the message. */
  function NameError(value: string, requiredMessage: string): (r: Option<string>)
    ensures r.None? <==> 2 <= |value| <= 50
    ensures value == "" ==> r == Some(requiredMessage)
  {
    if value == "" then Some(requiredMessage)
    else if |value| < 2 then Some("Au moins 2 caractères")
    else if |value| > 50 then Some("Max. 50 caractères")
    else None
  }

  predicate NonZeroDigit(c: char) { '1' <= c <= '9' }

  /** `/^(?:\+33|0)[1-9](?:[0-9]{8})$/`, decided by length and prefix. */
  predicate IsFrenchPhone(s: string) {
    if |s| == 10 && s[0] == '0' then NonZeroDigit(s[1]) && AllDigits(s[2..])
    else if |s| == 12 && s[..3] == "+33" then NonZeroDigit(s[3]) && AllDigits(s[4..])
    else false
  }

  /** The nine digits after either prefix decide alike: `0` and `+33` are the same number. */
  lemma PhonePrefixesAgree(digits: string)
    ensures IsFrenchPhone("0" + digits) <==> IsFrenchPhone("+33" + digits)
    ensures IsFrenchPhone("0" + digits) <==> |digits| == 9 && NonZeroDigit(digits[0]) && AllDigits(digits[1..])
  {
    var a, b := "0" + digits, "+33" + digits;
    assert b[..3] == "+33" && b[0] == '+';
    if |digits| == 9 {
      assert a[0] == '0' && a[1] == digits[0] && a[2..] == digits[1..];
      assert b[3] == digits[0] && b[4..] == digits[1..];
      assert IsFrenchPhone(a) <==> NonZeroDigit(digits[0]) && AllDigits(digits[1..]);
      assert IsFrenchPhone(b) <==> NonZeroDigit(digits[0]) && AllDigits(digits[1..]);
    } else {
      assert |a| != 10 && |b| != 12;
      assert !IsFrenchPhone(a) && !IsFrenchPhone(b);
    }
  }

  predicate LocalChar(c: char) {
    IsAsciiLetter(c) || IsDigit(c) || c == '.' || c == '_' || c == '%' || c == '+' || c == '-'
  }

  predicate DomainChar(c: char) { IsAsciiLetter(c) || IsDigit(c) || c == '.' || c == '-' }

  /**
   * `s` matches `/^[A-Z0-9._%+-]+@[A-Z0-9.-]+\.[A-Z]{2,}$/i` with its `@` at `i`
   * and the dot before the final letters at `j`.
   */
  ghost predicate EmailSplitAt(s: string, i: int, j: int) {
    0 < i && i + 1 < j && j + 2 < |s| && s[i] == '@' && s[j] == '.' &&
    (forall k :: 0 <= k < i ==> LocalChar(s[k])) &&
    (forall k :: i < k < j ==> DomainChar(s[k])) &&
    (forall k :: j < k < |s| ==> IsAsciiLetter(s[k]))
  }

  /** What the pattern accepts: some split into local part, domain and top-level letters. */
  ghost predicate EmailPattern(s: string) {
    exists i, j :: EmailSplitAt(s, i, j)
  }

  function LastIndexOf(s: string, c: char): (i: nat)
    requires c in s
    ensures i < |s| && s[i] == c && forall k :: i < k < |s| ==> s[k] != c
  {
    if s[|s| - 1] == c then |s| - 1
    else
      assert c in s[..|s| - 1] by {
        var k :| 0 <= k < |s| && s[k] == c;
        assert s[..|s| - 1][k] == c;
      }
      LastIndexOf(s[..|s| - 1], c)
  }

  /** The scanner: the first `@` must be the only one and the last dot must end the domain. */
  predicate EmailValid(s: string) {
    '@' in s && '.' in s &&
    var i := IndexOf(s, '@');
    var j := LastIndexOf(s, '.');
    0 < i && i + 1 < j && j + 2 < |s| &&
    (forall k :: 0 <= k < i ==> LocalChar(s[k])) &&
    (forall k :: i < k < j ==> DomainChar(s[k])) &&
    (forall k :: j < k < |s| ==> IsAsciiLetter(s[k]))
  }

  /** The scanner accepts exactly the strings the pattern matches. */
  lemma EmailValidIffPattern(s: string)
    ensures EmailValid(s) <==> EmailPattern(s)
  {
    if EmailValid(s) {
      assert EmailSplitAt(s, IndexOf(s, '@'), LastIndexOf(s, '.'));
    }
    if EmailPattern(s) {
      var i', j' :| EmailSplitAt(s, i', j');
      assert s[i'] == '@' && s[j'] == '.';
      var i := IndexOf(s, '@');
      var j := LastIndexOf(s, '.');
      assert forall k :: 0 <= k < i ==> s[k] != '@' by {
        forall k | 0 <= k < i ensures s[k] != '@' {
          assert s[..i][k] == s[k];
        }
      }
      assert forall k :: 0 <= k < i' ==> s[k] != '@';
      assert i == i';
      assert forall k :: j' < k < |s| ==> s[k] != '.';
      assert j == j';
    }
  }

  const EmailRequired: string := "L'e\U{2011}mail est requis"
  const EmailInvalid: string := "Adresse e\U{2011}mail invalide"

  /** `required`, then the pattern. */
  function EmailError(value: string): (r: Option<string>)
    ensures r.None? <==> value != "" && EmailPattern(value)
    ensures r == Some(EmailInvalid) <==> value != "" && !EmailPattern(value)
  {
    EmailValidIffPattern(value);
    if value == "" then Some(EmailRequired)
    else if !EmailValid(value) then Some(EmailInvalid)
    else None
  }

  /** `required`, then the pattern. */
  function PhoneError(value: string): (r: Option<string>)
    ensures r.None? <==> value != "" && IsFrenchPhone(value)
  {
    if value == "" then Some("Le téléphone est requis")
    else if !IsFrenchPhone(value) then Some("Numéro français invalide")
    else None
  }

  datatype BasePayload = BasePayload(firstName: string, lastName: string, email: string,
                                     phoneNumber: string, message: string)

  /** The form library calls the submit handler only when no field has an error; the message has no rule. */
  predicate FormValid(f: BasePayload) {
    NameError(f.firstName, "Le prénom est requis").None? && NameError(f.lastName, "Le nom est requis").None? &&
    EmailError(f.email).None? && PhoneError(f.phoneNumber).None?
  }

  /** The rules in plain terms. */
  lemma FormValidMeans(f: BasePayload)
    ensures FormValid(f) <==>
      2 <= |f.firstName| <= 50 && 2 <= |f.lastName| <= 50 &&
      f.email != "" && EmailPattern(f.email) && IsFrenchPhone(f.phoneNumber)
  {
    if IsFrenchPhone(f.phoneNumber) {
      assert f.phoneNumber != "";
    }
  }

  // ---------------------------------------------------------------------------
  // Payload and submission
  // ---------------------------------------------------------------------------

  /** The form fields plus one id field, named after the request type. */
  datatype InterestPayload = InterestPayload(form: BasePayload, idKey: string, idValue: string)

  /** `buildPayload`: `{ ...formData, propertyId }` or `{ ...formData, accompaniementId }`. */
  function BuildPayload(config: RequestConfig, form: BasePayload): (r: Result<InterestPayload>)
    ensures r.Ok? <==> config.kind == "property" || config.kind == "service"
    ensures r.Ok? ==> r.value.form == form && r.value.idValue == config.id
    ensures r.Ok? ==> (r.value.idKey == "propertyId" <==> config.kind == "property")
  {
    if config.kind == "property" then Ok(InterestPayload(form, "propertyId", config.id))
    else if config.kind == "service" then Ok(InterestPayload(form, "accompaniementId", config.id))
    else Err("Unsupported request type: " + config.kind)
  }

  /** A configuration made by `createRequestConfig` always builds its payload. */
  lemma ConfigBuildsPayload(kind: string, id: string, form: BasePayload)
    requires CreateRequestConfig(kind, id).Ok?
    ensures BuildPayload(CreateRequestConfig(kind, id).value, form) ==
      Ok(InterestPayload(form, if kind == "property" then "propertyId" else "accompaniementId", id))
  {
  }

  datatype FormError = FormError(statusCode: JsValue, error: JsValue, message: JsValue)

  const GenericError: string := "Une erreur est survenue. Merci de réessayer."

  /** `a || b`. */
  function Or(a: JsValue, b: JsValue): JsValue { if Truthy(a) then a else b }

  /**
   * The error data of a failed response: each field the server sent (and is
   * truthy) wins over the response's status, status text and the generic message.
   * `body` is `None` when the response is not JSON.
   */
  function ErrorDataOf(status: int, statusText: string, body: Option<Entries>): (r: FormError)
    ensures body.None? ==> r == FormError(Num(status), Str(statusText), Str(GenericError))
    ensures body.Some? && Truthy(Get(body.value, "statusCode")) ==> r.statusCode == Get(body.value, "statusCode")
    ensures body.Some? && !Truthy(Get(body.value, "statusCode")) ==> r.statusCode == Num(status)
    ensures body.Some? && Truthy(Get(body.value, "error")) ==> r.error == Get(body.value, "error")
    ensures body.Some? && !Truthy(Get(body.value, "error")) ==> r.error == Str(statusText)
    ensures body.Some? && Truthy(Get(body.value, "message")) ==> r.message == Get(body.value, "message")
    ensures body.Some? && !Truthy(Get(body.value, "message")) ==> r.message == Str(GenericError)
    ensures Truthy(r.message)
  {
    match body
    case None => FormError(Num(status), Str(statusText), Str(GenericError))
    case Some(b) => FormError(Or(Get(b, "statusCode"), Num(status)), Or(Get(b, "error"), Str(statusText)),
                              Or(Get(b, "message"), Str(GenericError)))
  }

  /** What `fetch` gave: a response, or a thrown error (with its message when it is an `Error`). */
  datatype Response =
    | Answered(ok: bool, status: int, statusText: string, body: Option<Entries>)
    | Thrown(thrownMessage: Option<string>)

  datatype Status = Idle | Loading | Success | Failure

  class Form {
    const config: RequestConfig
    var values: BasePayload
    var status: Status
    var errorMessage: string

    /** The default values: empty fields and the configuration's default message. */
    static function Defaults(config: RequestConfig): BasePayload {
      BasePayload("", "", "", "", config.defaultMessage)
    }

    constructor(config: RequestConfig)
      ensures this.config == config && values == Defaults(config) && status == Idle && errorMessage == ""
    {
      this.config := config;
      values := Defaults(config);
      status := Idle;
      errorMessage := "";
    }

    /** Typing into the fields. */
    method Fill(v: BasePayload)
      modifies this
      ensures values == v && status == old(status) && errorMessage == old(errorMessage)
    {
      values := v;
    }

    /**
     * `handleSubmit(onSubmit)`. An invalid form changes nothing. Otherwise: loading;
     * a successful response gives success; a 400 with an `onError` handler returns to
     * idle and reports the error data; any other failure gives the error status with
     * its message.
     */
    method Submit(response: Response, hasOnError: bool) returns (sent: Option<InterestPayload>, reported: Option<FormError>)
      modifies this
      ensures values == old(values)
      ensures !FormValid(values) ==> status == old(status) && errorMessage == old(errorMessage) && sent.None? && reported.None?
      ensures FormValid(values) && BuildPayload(config, values).Err? ==>
        sent.None? && reported.None? && status == Failure && errorMessage == BuildPayload(config, values).message
      ensures FormValid(values) && BuildPayload(config, values).Ok? ==> sent == Some(BuildPayload(config, values).value)
      ensures sent.Some? && response.Thrown? ==>
        status == Failure && errorMessage == response.thrownMessage.GetOr(GenericError) && reported.None?
      ensures sent.Some? && response.Answered? && response.ok ==> status == Success && reported.None?
      ensures sent.Some? && response.Answered? && !response.ok && response.status == 400 && hasOnError ==>
        status == Idle && errorMessage == "" &&
        reported == Some(ErrorDataOf(response.status, response.statusText, response.body))
      ensures sent.Some? && response.Answered? && !response.ok && !(response.status == 400 && hasOnError) ==>
        status == Failure && reported.None? &&
        errorMessage == ToJsString(ErrorDataOf(response.status, response.statusText, response.body).message)
    {
      sent, reported := None, None;
      if !FormValid(values) {
        return;
      }
      status := Loading;
      errorMessage := "";
      var payload := BuildPayload(config, values);
      if payload.Err? {
        status := Failure;
        errorMessage := payload.message;
        return;
      }
      sent := Some(payload.value);
      match response
      case Thrown(m) =>
        status := Failure;
        errorMessage := m.GetOr(GenericError);
      case Answered(ok, code, text, body) =>
        if ok {
          status := Success;
        } else {
          var errorData := ErrorDataOf(code, text, body);
          if code == 400 && hasOnError {
            status := Idle;
            reported := Some(errorData);
          } else {
            status := Failure;
            errorMessage := ToJsString(errorData.message);
          }
        }
    }

    /** The timer after a success: `reset()`, `onSuccess()`, back to idle. */
    method FinishSuccess()
      requires status == Success
      modifies this
      ensures values == Defaults(config) && status == Idle && errorMessage == old(errorMessage)
    {
      values := Defaults(config);
      status := Idle;
    }

    /** The submit button is disabled while loading. */
    predicate SubmitDisabled()
      reads this
    {
      status == Loading
    }
  }
}
