/**
 * The log-in form (src/pages/login/index.js): validation, the change handler
 * and the submit gate.
 */
module Login {
  import opened Wrappers
  import opened Text
  import opened Validation

  datatype Field = Email | Password

  datatype Form = Form(email: string, password: string)

  const EmptyForm: Form := Form("", "")

  type Errors = map<Field, FieldError>

  function FieldValue(f: Form, k: Field): string
  {
    match k
    case Email => f.email
    case Password => f.password
  }

  datatype PageState = PageState(form: Form, errors: Errors)

  /** `handleChange`: exactly the named field takes the value; only its error is reset. */
  function HandleChange(s: PageState, name: Field, value: string): (r: PageState)
    ensures FieldValue(r.form, name) == value
    ensures forall k :: k != name ==> FieldValue(r.form, k) == FieldValue(s.form, k)
    ensures name in r.errors && r.errors[name] == Cleared
    ensures forall k :: k != name ==> (k in r.errors <==> k in s.errors)
    ensures forall k :: k != name && k in s.errors ==> r.errors[k] == s.errors[k]
  {
    var form := match name
      case Email => s.form.(email := value)
      case Password => s.form.(password := value);
    PageState(form, s.errors[name := Cleared])
  }

  /** What `validate` returns: the shared email rule, and "required" for an empty password only. */
  ghost predicate LoginErrors(form: Form, e: Errors)
  {
    && (Email in e <==> EmailError(form.email).Some?)
    && (Email in e ==> EmailError(form.email) == Some(e[Email]))
    && (Password in e <==> form.password == "")
    && (Password in e ==> e[Password] == PasswordRequired)
  }

  method Validate(form: Form) returns (errors: Errors)
    ensures LoginErrors(form, errors)
  {
    errors := map[];
    if IsBlank(form.email) {
      errors := errors[Email := EmailRequired];
    } else if !EmailFormatOk(form.email) {
      errors := errors[Email := EmailInvalid];
    }
    if form.password == "" {
      errors := errors[Password := PasswordRequired];
    }
  }

  /** Any non-empty password passes: there is no length rule at log-in. */
  lemma AnyPasswordAccepted(form: Form, e: Errors)
    requires LoginErrors(form, e) && form.password != ""
    ensures Password !in e
  {
  }

  /** No errors exactly when the email passes its rule and the password is non-empty. */
  lemma NoErrorsIffAcceptable(form: Form, e: Errors)
    requires LoginErrors(form, e)
    ensures |e| == 0 <==> EmailError(form.email).None? && form.password != ""
  {
    if EmailError(form.email).None? && form.password != "" {
      assert e.Keys == {} by {
        forall k | k in e ensures false {
          match k
          case Email =>
          case Password =>
        }
      }
      assert e == map[];
    } else {
      var k := if EmailError(form.email).Some? then Email else Password;
      assert k in e;
      assert e != map[];
    }
  }

  datatype Submission = ShowErrors(errors: Errors) | PostLogin(body: Form)

  /**
   * `handleSubmit`'s gate: with any error the errors are stored, the loader
   * is shown and the handler returns before any request; otherwise the
   * loader is shown and the form is posted. Either way the loader is shown.
   */
  method HandleSubmit(form: Form) returns (s: Submission, showLoader: bool)
    ensures s.PostLogin? <==> EmailError(form.email).None? && form.password != ""
    ensures s.PostLogin? ==> s.body == form
    ensures s.ShowErrors? ==> |s.errors| > 0 && LoginErrors(form, s.errors)
    ensures showLoader
  {
    var validationErrors := Validate(form);
    NoErrorsIffAcceptable(form, validationErrors);
    if |validationErrors| > 0 {
      s := ShowErrors(validationErrors);
      showLoader := true;
      return;
    }
    showLoader := true;
    s := PostLogin(form);
  }
}
