/**
 * The second `submit` listener of the contact form: the three fields are
 * trimmed; an empty one raises the "all fields required" alert, otherwise an
 * address that `validateEmail` rejects raises the "valid email" alert, and a
 * complete, well-formed form raises nothing.
 */
module FieldValidation {
  import opened JsText
  import opened EmailPattern

  /** The listener's three possible endings. */
  datatype Verdict = MissingField | BadEmail | Ok

  const FieldsRequiredAlert: string := "Todos los campos son obligatorios"
  const InvalidEmailAlert: string := "Por favor, introduce un correo electr\U{F3}nico v\U{E1}lido"

  /** The listener's decision on the raw values of the `name`, `email` and `message` inputs. */
  function Validate(name: string, email: string, message: string): (v: Verdict)
    ensures v == MissingField <==> AllSpace(name) || AllSpace(email) || AllSpace(message)
    ensures v == BadEmail <==> !AllSpace(name) && !AllSpace(email) && !AllSpace(message) && !IsEmailShape(Trim(email))
    ensures v == Ok <==> !AllSpace(name) && !AllSpace(email) && !AllSpace(message) && IsEmailShape(Trim(email))
  {
    var n, e, m := Trim(name), Trim(email), Trim(message);
    if n == [] || e == [] || m == [] then MissingField
    else if !ValidateEmail(e) then BadEmail
    else Ok
  }

  /** The alerts the listener shows for a verdict, in order. */
  function Alerts(v: Verdict): (shown: seq<string>)
    ensures |shown| <= 1
    ensures shown == [] <==> v == Ok
  {
    match v
    case MissingField => [FieldsRequiredAlert]
    case BadEmail => [InvalidEmailAlert]
    case Ok => []
  }

  /**
   * What the user sees: exactly the "all fields required" alert when a field
   * is blank, whatever the address; otherwise exactly the "valid email" alert
   * when the address is malformed; otherwise nothing.
   */
  lemma AlertsShown(name: string, email: string, message: string)
    ensures var shown := Alerts(Validate(name, email, message));
      && (Trim(name) == [] || Trim(email) == [] || Trim(message) == [] ==> shown == [FieldsRequiredAlert])
      && (Trim(name) != [] && Trim(email) != [] && Trim(message) != [] && !ValidateEmail(Trim(email)) ==> shown == [InvalidEmailAlert])
      && (Trim(name) != [] && Trim(email) != [] && Trim(message) != [] && ValidateEmail(Trim(email)) ==> shown == [])
  {
  }

  /**
   * The missing-field check comes first: with a blank field the verdict is the
   * same for every address, so `validateEmail` has no say.
   */
  lemma MissingFieldIgnoresAddress(name: string, email: string, email': string, message: string)
    requires AllSpace(name) || AllSpace(message)
    ensures Validate(name, email, message) == Validate(name, email', message) == MissingField
  {
  }

  /** Surrounding white space does not change the verdict: each value is trimmed first. */
  lemma {:induction false} TrimmedValuesSameVerdict(name: string, email: string, message: string)
    ensures Validate(Trim(name), Trim(email), Trim(message)) == Validate(name, email, message)
  {
    TrimIdempotent(name);
    TrimIdempotent(email);
    TrimIdempotent(message);
  }

  /** A form with an empty or blank name is refused whatever the other fields hold. */
  lemma BlankNameExamples()
    ensures Validate("", "a@b.com", "hi") == MissingField
    ensures Validate("   ", "a@b.com", "hi") == MissingField
  {
    assert AllSpace("");
    var blank := "   ";
    assert IsSpace(blank[0]) && IsSpace(blank[1]) && IsSpace(blank[2]);
    assert AllSpace(blank);
  }

  /** A complete form with a malformed address is refused for the address. */
  lemma MalformedAddressExample()
    ensures Validate("A", "not-an-email", "hi") == BadEmail
  {
    var e := "not-an-email";
    assert !IsSpace("A"[0]) && !IsSpace("hi"[0]) && !IsSpace(e[0]);
    assert !AllSpace("A") && !AllSpace("hi") && !AllSpace(e);
    TrimKeepsFramed(e);
    RejectedExamples();
    assert !IsEmailShape(Trim(e));
  }

  /** A complete form with a well-formed address passes. */
  lemma WellFormedExample()
    ensures Validate("A", "a@b.com", "hi") == Ok
  {
    assert !IsSpace("A"[0]) && !IsSpace("hi"[0]);
    TrimKeepsFramed("a@b.com");
    AcceptsOrdinary();
  }
}
