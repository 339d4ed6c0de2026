/**
 * The messages the sign-up and log-in forms put under their fields, and the
 * email rule both forms apply.
 */
module Validation {
  import opened Wrappers
  import opened Text

  /** One message under a field; `Cleared` is the empty message `handleChange` writes. */
  datatype FieldError =
    | Cleared
    | FirstNameRequired
    | EmailRequired
    | EmailInvalid
    | PasswordRequired
    | PasswordTooShort
    | PasswordsDiffer

  /** The text shown for each message. */
  function MessageText(e: FieldError): string
  {
    match e
    case Cleared => ""
    case FirstNameRequired => "First name is required"
    case EmailRequired => "Email is required"
    case EmailInvalid => "Invalid email format"
    case PasswordRequired => "Password is required"
    case PasswordTooShort => "Password must be at least 6 characters"
    case PasswordsDiffer => "Passwords do not match"
  }

  /**
   * The email rule: "required" when the trimmed value is empty, otherwise
   * "invalid format" when the pattern is not found in the (untrimmed) value,
   * otherwise no error.
   */
  function EmailError(email: string): Option<FieldError>
  {
    if IsBlank(email) then Some(EmailRequired)
    else if !EmailFormatOk(email) then Some(EmailInvalid)
    else None
  }

  /**
   * Exactly one of the two email messages, or none: "required" for a blank
   * value, else "invalid format" exactly when `\S+@\S+\.\S+` matches nowhere.
   */
  lemma EmailErrorCases(email: string)
    ensures EmailError(email) == Some(EmailRequired) <==> IsBlank(email)
    ensures EmailError(email) == Some(EmailInvalid) <==> !IsBlank(email) && !EmailPatternFound(email)
    ensures EmailError(email) == None <==> !IsBlank(email) && EmailPatternFound(email)
  {
    EmailFormatOkIffPattern(email);
  }
}
