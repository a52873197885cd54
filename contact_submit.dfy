/**
 * The contact form's asynchronous `submit` listener and `getCsrfToken`. The
 * form data and the CSRF token are sent to `/api/contact`; an `ok` response
 * gives the thank-you alert and resets the form, while a non-ok response, a
 * rejected `fetch` or a missing CSRF meta tag gives the failure alert and
 * leaves the form as it was.
 *
 * The transport is an input: a `Settlement` says how the request settled.
 * The same form also carries the validation listener; the two are independent
 * listeners on one event, so validation does not stop the request.
 */
module ContactSubmit {
  import opened Wrappers
  import opened JsText
  import opened EmailPattern
  import opened FieldValidation

  /** The form's entries by field name, as `new FormData(form)` collects them. */
  type FormData = map<string, string>

  /** The page's `<meta name="csrf-token">`: absent, or present with its `content` attribute if it has one. */
  datatype CsrfMeta = NoMeta | Meta(content: Option<string>)

  /** How the request settled: a response with its `ok` flag, or a rejected `fetch`. */
  datatype Settlement = Responded(ok: bool) | Rejected

  /** Reading an attribute of the missing meta element throws a `TypeError`. */
  datatype TypeError = NullElement

  const Endpoint: string := "/api/contact"
  const ThanksAlert: string := "Gracias por tu mensaje. Te contactaremos pronto!"
  const FailureAlert: string := "Hubo un error al enviar el mensaje. Por favor, intenta de nuevo."

  /** The `fetch` issued: target, method, body and the `X-CSRF-Token` header's value. */
  datatype Request = Request(url: string, httpMethod: string, body: FormData, csrfToken: string)

  /** What one listener run produced: the request sent, the alerts shown in order, and whether the form was reset. */
  datatype Outcome = Outcome(request: Option<Request>, alerts: seq<string>, reset: bool)

  /**
   * `getCsrfToken`: the meta tag's `content`. Without the tag it throws; a tag
   * without the attribute gives `null`, which becomes the header text "null".
   */
  function GetCsrfToken(meta: CsrfMeta): (r: Result<string, TypeError>)
    ensures r.Failure? <==> meta.NoMeta?
    ensures meta.Meta? && meta.content.Some? ==> r == Success(meta.content.value)
    ensures meta == Meta(None) ==> r == Success("null")
  {
    match meta
    case NoMeta => Failure(NullElement)
    case Meta(content) =>
      match content
      case Some(value) => Success(value)
      case None => Success("null")
  }

  /**
   * The asynchronous listener's effect on a form holding `body`: one alert in
   * every case; a request exactly when the token could be read; thanks and a
   * reset exactly when that request got an `ok` response.
   */
  function SubmitOutcome(body: FormData, meta: CsrfMeta, settled: Settlement): (o: Outcome)
    ensures |o.alerts| == 1
    ensures o.reset <==> meta.Meta? && settled == Responded(true)
    ensures o.alerts == (if o.reset then [ThanksAlert] else [FailureAlert])
    ensures o.request.Some? <==> meta.Meta?
    ensures o.request.Some? ==>
              o.request.value.body == body && o.request.value.url == Endpoint &&
              GetCsrfToken(meta) == Success(o.request.value.csrfToken)
  {
    match GetCsrfToken(meta)
    case Failure(_) => Outcome(None, [FailureAlert], false)
    case Success(token) =>
      var request := Request(Endpoint, "POST", body, token);
      if settled == Responded(true) then Outcome(Some(request), [ThanksAlert], true)
      else Outcome(Some(request), [FailureAlert], false)
  }

  /** The inputs the validation listener looks up. */
  predicate HasContactFields(data: FormData) {
    "name" in data && "email" in data && "message" in data
  }

  /**
   * One `submit` event, both listeners in the order they were registered: the
   * validation listener (registered when the script runs) and then the
   * asynchronous one (registered on `DOMContentLoaded`).
   */
  function OnSubmitEvent(data: FormData, meta: CsrfMeta, settled: Settlement): (o: Outcome)
    requires HasContactFields(data)
    ensures o.request.Some? <==> meta.Meta?
    ensures o.reset <==> meta.Meta? && settled == Responded(true)
    ensures o.alerts == Alerts(Validate(data["name"], data["email"], data["message"]))
      + (if o.reset then [ThanksAlert] else [FailureAlert])
  {
    var checked := Alerts(Validate(data["name"], data["email"], data["message"]));
    var sent := SubmitOutcome(data, meta, settled);
    Outcome(sent.request, checked + sent.alerts, sent.reset)
  }

  /**
   * Validation does not guard the request: a form with a blank field, or with a
   * malformed address, is still posted when the page has its CSRF meta tag,
   * and the user sees the validation alert followed by the transport's alert.
   */
  lemma ValidationDoesNotGateRequest(data: FormData, meta: CsrfMeta, settled: Settlement)
    requires HasContactFields(data) && meta.Meta?
    requires Validate(data["name"], data["email"], data["message"]) != Ok
    ensures OnSubmitEvent(data, meta, settled).request.Some?
    ensures |OnSubmitEvent(data, meta, settled).alerts| == 2
    ensures OnSubmitEvent(data, meta, settled).alerts[0] in {FieldsRequiredAlert, InvalidEmailAlert}
    ensures OnSubmitEvent(data, meta, settled).alerts[0] == Alerts(Validate(data["name"], data["email"], data["message"]))[0]
    ensures OnSubmitEvent(data, meta, settled).alerts[1..] == SubmitOutcome(data, meta, settled).alerts
  {
  }

  /** The contact form element: its current entries and the defaults `reset` restores. */
  class ContactForm {
    var data: FormData
    const defaults: FormData

    ghost predicate Valid()
      reads this
    {
      HasContactFields(data) && HasContactFields(defaults)
    }

    /** A form with the given default values, holding what the user has entered. */
    constructor (defaults: FormData, entered: FormData)
      requires HasContactFields(defaults) && HasContactFields(entered)
      ensures Valid() && this.defaults == defaults && data == entered
    {
      this.defaults := defaults;
      data := entered;
    }

    /** `form.reset()`: every field back to its default. */
    method Reset()
      modifies this`data
      ensures data == defaults
    {
      data := defaults;
    }

    /** The validation listener: trim the three fields, then check presence and the address. */
    method ValidateFields() returns (alerts: seq<string>)
      requires Valid()
      ensures alerts == Alerts(Validate(data["name"], data["email"], data["message"]))
      ensures |alerts| <= 1
    {
      var name := Trim(data["name"]);
      var email := Trim(data["email"]);
      var message := Trim(data["message"]);
      if name == [] || email == [] || message == [] {
        alerts := [FieldsRequiredAlert];
        return;
      }
      if !ValidateEmail(email) {
        alerts := [InvalidEmailAlert];
        return;
      }
      alerts := [];
    }

    /** The asynchronous listener: build the request, await its settlement, report, and reset on success. */
    method SubmitToServer(meta: CsrfMeta, settled: Settlement) returns (request: Option<Request>, alerts: seq<string>)
      requires Valid()
      modifies this`data
      ensures Valid()
      ensures request == SubmitOutcome(old(data), meta, settled).request
      ensures alerts == SubmitOutcome(old(data), meta, settled).alerts
      ensures data == if SubmitOutcome(old(data), meta, settled).reset then defaults else old(data)
    {
      var body := data;
      var token := GetCsrfToken(meta);
      if token.Failure? {
        request, alerts := None, [FailureAlert];
        return;
      }
      request := Some(Request(Endpoint, "POST", body, token.value));
      if settled == Responded(true) {
        alerts := [ThanksAlert];
        Reset();
      } else {
        alerts := [FailureAlert];
      }
    }

    /** A `submit` event: both listeners run, validation first; neither stops the other. */
    method Submit(meta: CsrfMeta, settled: Settlement) returns (request: Option<Request>, alerts: seq<string>)
      requires Valid()
      modifies this`data
      ensures Valid()
      ensures request == OnSubmitEvent(old(data), meta, settled).request
      ensures alerts == OnSubmitEvent(old(data), meta, settled).alerts
      ensures data == if OnSubmitEvent(old(data), meta, settled).reset then defaults else old(data)
    {
      var checked := ValidateFields();
      var sent;
      request, sent := SubmitToServer(meta, settled);
      alerts := checked + sent;
    }
  }
}
