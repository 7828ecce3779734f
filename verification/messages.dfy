/** The validation messages the validators report, one constructor per distinct text. */
module Messages {

  datatype Msg =
    | UsernameBlank
    | EmailBlank
    | EmailInvalid
    | EmailInUse
    | PasswordShort
    | PasswordBlank
    | ConfirmationMismatch
    | CredentialsIncorrect
    | NotActivated
    | EmailNotFound
    | ResetInvalid
    | ResetExpired
    | TitleRequired
    | TitleTooLong
    | TitleCharacters
    | ContentTooShort
    | ContentTooLong

  /** The text the source attaches to each message. */
  function MessageText(m: Msg): string {
    match m
    case UsernameBlank => "Username cannot be blank."
    case EmailBlank => "Email cannot be blank."
    case EmailInvalid => "Email format is invalid."
    case EmailInUse => "Email is already in use"
    case PasswordShort => "Password must be at least 6 characters."
    case PasswordBlank => "Password cannot be blank."
    case ConfirmationMismatch => "Password confirmation does not match password"
    case CredentialsIncorrect => "Email or Password are incorrect."
    case NotActivated => "Account not activated. Check your email for activation link."
    case EmailNotFound => "Email address not found."
    case ResetInvalid => "Reset email or token is invalid"
    case ResetExpired => "Password Reset has Expired."
    case TitleRequired => "Title is required."
    case TitleTooLong => "Title should not exceed 200 characters."
    case TitleCharacters => "Title should only contain letters, numbers, spaces, and '\",.!?- characters."
    case ContentTooShort => "Article content must be at least 3 characters."
    case ContentTooLong => "Article content should not exceed 5000 characters."
  }

  /** `[m]` when `failed`, else nothing: one validator's contribution to the collected errors. */
  function When(failed: bool, m: Msg): (r: seq<Msg>)
    ensures m in r <==> failed
    ensures |r| <= 1
  {
    if failed then [m] else []
  }
}
