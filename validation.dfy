/**
 * `UserValidator` of backend/utils/validation/users.py: the checks run on
 * a create request before the row is written. They only read the users
 * table.
 */
module Validation {
  import opened Wrappers
  import opened Seqs
  import opened Text
  import opened UserModel
  import opened UserSchemas

  /** The validator's exceptions, with their messages. */
  datatype ValidationError =
    | EmailAlreadyExists(message: string)
    | UserAlreadyExists(message: string)
    | PasswordNotStrongEnough(message: string)

  predicate EmailTaken(users: seq<User>, email: string) {
    exists u :: u in users && u.profile.email == email
  }

  predicate DisplayNameTaken(users: seq<User>, name: string) {
    exists u :: u in users && u.profile.display_name == name
  }

  /** `_validate_email`: refuses an address `get_by_email` finds. */
  function ValidateEmail(users: seq<User>, email: string): (r: Option<ValidationError>)
    ensures r.Some? <==> EmailTaken(users, email)
    ensures r.Some? ==> r.value == EmailAlreadyExists("Email already in use")
  {
    if First(users, (u: User) => u.profile.email == email).Some? then Some(EmailAlreadyExists("Email already in use"))
    else None
  }

  /** `_validate_display_name`: refuses a name `get_by_display_name` finds. */
  function ValidateDisplayName(users: seq<User>, name: string): (r: Option<ValidationError>)
    ensures r.Some? <==> DisplayNameTaken(users, name)
    ensures r.Some? ==> r.value == UserAlreadyExists("Display name already in use")
  {
    if First(users, (u: User) => u.profile.display_name == name).Some? then Some(UserAlreadyExists("Display name already in use"))
    else None
  }

  function MissingClassMessage(c: CharClass): string {
    match c
    case Uppercase => "Password must contain at least one uppercase letter"
    case Lowercase => "Password must contain at least one lowercase letter"
    case Digit => "Password must contain at least one digit"
  }

  /** `_validate_password`: refuses a password lacking a class, naming the first one missing. */
  function ValidatePassword(password: string): (r: Option<ValidationError>)
    ensures r.None? <==> HasUpper(password) && HasLower(password) && HasDigit(password)
    ensures r.Some? ==> FirstMissingClass(password).Some?
    ensures r.Some? ==> r.value == PasswordNotStrongEnough(MissingClassMessage(FirstMissingClass(password).value))
  {
    match FirstMissingClass(password)
    case Some(c) => Some(PasswordNotStrongEnough(MissingClassMessage(c)))
    case None => None
  }

  /**
   * `validate`: email, then display name, then password; the first check
   * that fails decides the error, and success answers true.
   */
  function Validate(users: seq<User>, uc: UserCreate): (r: Result<bool, ValidationError>)
    ensures r.Success? ==> r.value
    ensures r.Failure? && r.error.EmailAlreadyExists? <==> EmailTaken(users, uc.profile.email)
    ensures r.Failure? && r.error.UserAlreadyExists? <==>
      !EmailTaken(users, uc.profile.email) && DisplayNameTaken(users, uc.profile.display_name)
    ensures r.Failure? && r.error.PasswordNotStrongEnough? <==>
      && !EmailTaken(users, uc.profile.email) && !DisplayNameTaken(users, uc.profile.display_name)
      && FirstMissingClass(uc.password).Some?
    ensures r.Success? <==>
      && !EmailTaken(users, uc.profile.email) && !DisplayNameTaken(users, uc.profile.display_name)
      && HasUpper(uc.password) && HasLower(uc.password) && HasDigit(uc.password)
  {
    match ValidateEmail(users, uc.profile.email)
    case Some(e) => Failure(e)
    case None =>
      match ValidateDisplayName(users, uc.profile.display_name)
      case Some(e) => Failure(e)
      case None =>
        match ValidatePassword(uc.password)
        case Some(e) => Failure(e)
        case None => Success(true)
  }
}
