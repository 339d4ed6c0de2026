/**
 * The sign-up form (src/pages/signup/index.js): the form fields, the
 * client-side validation with its messages, the change handler and the
 * submit gate that decides whether the request is sent.
 */
module Signup {
  import opened Wrappers
  import opened Text
  import opened Validation

  datatype Field = FirstName | LastName | Email | Gender | Password | ConfirmPassword

  datatype Form = Form(firstName: string, lastName: string, email: string, gender: string, password: string, cPassword: string)

  const EmptyForm: Form := Form("", "", "", "", "", "")

  /** The `errors` object: one message per field name. */
  type Errors = map<Field, FieldError>

  const MinPasswordLength: nat := 6

  function FieldValue(f: Form, k: Field): string
  {
    match k
    case FirstName => f.firstName
    case LastName => f.lastName
    case Email => f.email
    case Gender => f.gender
    case Password => f.password
    case ConfirmPassword => f.cPassword
  }

  /** `{ ...formData, [name]: value }`. */
  function WithField(f: Form, k: Field, v: string): (r: Form)
    ensures FieldValue(r, k) == v
    ensures forall k' :: k' != k ==> FieldValue(r, k') == FieldValue(f, k')
  {
    match k
    case FirstName => f.(firstName := v)
    case LastName => f.(lastName := v)
    case Email => f.(email := v)
    case Gender => f.(gender := v)
    case Password => f.(password := v)
    case ConfirmPassword => f.(cPassword := v)
  }

  /** The page's state: the form data and the errors shown under the fields. */
  datatype PageState = PageState(form: Form, errors: Errors)

  /**
   * `handleChange`: exactly the named field takes the value, and only that
   * field's error is reset (to the empty message, the key stays).
   */
  function HandleChange(s: PageState, name: Field, value: string): (r: PageState)
    ensures FieldValue(r.form, name) == value
    ensures forall k :: k != name ==> FieldValue(r.form, k) == FieldValue(s.form, k)
    ensures name in r.errors && r.errors[name] == Cleared
    ensures forall k :: k != name ==> (k in r.errors <==> k in s.errors)
    ensures forall k :: k != name && k in s.errors ==> r.errors[k] == s.errors[k]
  {
    PageState(WithField(s.form, name, value), s.errors[name := Cleared])
  }

  /**
   * What `validate` returns, field by field: the first name when blank, the
   * email by the shared email rule, the password when shorter than six (its
   * length message replaces the "required" one), the confirmation when it
   * differs; last name and gender never.
   */
  ghost predicate SignupErrors(form: Form, e: Errors)
  {
    && (FirstName in e <==> IsBlank(form.firstName))
    && (FirstName in e ==> e[FirstName] == FirstNameRequired)
    && (Email in e <==> EmailError(form.email).Some?)
    && (Email in e ==> EmailError(form.email) == Some(e[Email]))
    && (Password in e <==> |form.password| < MinPasswordLength)
    && (Password in e ==> e[Password] == PasswordTooShort)
    && (ConfirmPassword in e <==> form.cPassword != form.password)
    && (ConfirmPassword in e ==> e[ConfirmPassword] == PasswordsDiffer)
    && LastName !in e && Gender !in e
  }

  /** The form passes validation. */
  ghost predicate SignupAcceptable(form: Form)
  {
    !IsBlank(form.firstName) && EmailError(form.email).None? &&
    |form.password| >= MinPasswordLength && form.cPassword == form.password
  }

  /** `validate`: the checks run one after another, later ones overwriting earlier ones. */
  method Validate(form: Form) returns (errors: Errors)
    ensures SignupErrors(form, errors)
  {
    errors := map[];
    if IsBlank(form.firstName) {
      errors := errors[FirstName := FirstNameRequired];
    }
    if IsBlank(form.email) {
      errors := errors[Email := EmailRequired];
    } else if !EmailFormatOk(form.email) {
      errors := errors[Email := EmailInvalid];
    }
    if form.password == "" {
      errors := errors[Password := PasswordRequired];
    }
    if |form.password| < MinPasswordLength {
      errors := errors[Password := PasswordTooShort];
    }
    if form.cPassword != form.password {
      errors := errors[ConfirmPassword := PasswordsDiffer];
    }
  }

  /** The description fixes the error map: one map per form. */
  lemma SignupErrorsUnique(form: Form, e1: Errors, e2: Errors)
    requires SignupErrors(form, e1) && SignupErrors(form, e2)
    ensures e1 == e2
  {
    forall k | k in e1 ensures k in e2 && e1[k] == e2[k] {
      match k
      case FirstName =>
      case LastName =>
      case Email =>
      case Gender =>
      case Password =>
      case ConfirmPassword =>
    }
    forall k | k in e2 ensures k in e1 {
      match k
      case FirstName =>
      case LastName =>
      case Email =>
      case Gender =>
      case Password =>
      case ConfirmPassword =>
    }
  }

  /** The error map is empty exactly when the form is acceptable. */
  lemma NoErrorsIffAcceptable(form: Form, e: Errors)
    requires SignupErrors(form, e)
    ensures |e| == 0 <==> SignupAcceptable(form)
  {
    if SignupAcceptable(form) {
      assert e.Keys == {} by {
        forall k | k in e ensures false {
          match k
          case FirstName =>
          case LastName =>
          case Email =>
          case Gender =>
          case Password =>
          case ConfirmPassword =>
        }
      }
      assert e == map[];
    } else {
      var k :=
        if IsBlank(form.firstName) then FirstName
        else if EmailError(form.email).Some? then Email
        else if |form.password| < MinPasswordLength then Password
        else ConfirmPassword;
      assert k in e;
      assert e != map[];
    }
  }

  /** An empty password is reported with the length message, never "required". */
  lemma EmptyPasswordReportsLength(form: Form, e: Errors)
    requires SignupErrors(form, e) && form.password == ""
    ensures Password in e && e[Password] == PasswordTooShort && e[Password] != PasswordRequired
  {
  }

  /** What submitting ends with: errors stored on the page, or the request body sent. */
  datatype Submission = ShowErrors(errors: Errors) | PostSignup(body: Form)

  /**
   * `handleSubmit`'s gate: with any error the errors are stored and nothing
   * is sent (and no loader is shown); otherwise the loader is shown and the
   * whole form is posted.
   */
  method HandleSubmit(form: Form) returns (s: Submission, showLoader: bool)
    ensures s.PostSignup? <==> SignupAcceptable(form)
    ensures s.PostSignup? ==> s.body == form
    ensures s.ShowErrors? ==> |s.errors| > 0 && SignupErrors(form, s.errors)
    ensures showLoader <==> s.PostSignup?
  {
    var validationErrors := Validate(form);
    NoErrorsIffAcceptable(form, validationErrors);
    if |validationErrors| > 0 {
      s := ShowErrors(validationErrors);
      showLoader := false;
      return;
    }
    showLoader := true;
    s := PostSignup(form);
  }
}
