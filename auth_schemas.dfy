/** The login request of backend/schemas/auth.py. */
module AuthSchemas {
  import opened Wrappers
  import opened Text
  import opened UserSchemas

  datatype Login = Login(email: string, password: string)

  /** Validation of `Login`: the same domain check as user creation; the password is not checked. */
  function ParseLogin(email: string, password: string): (r: Result<Login, string>)
    ensures r.Success? <==> EndsWith(email, ".com") || EndsWith(email, ".fr") || EndsWith(email, ".net")
    ensures r.Success? ==> r.value == Login(email, password)
    ensures r.Failure? ==> r.error == "Domain name must end with .com, .fr or .net"
  {
    match EmailMustBeValidDomain(email)
    case Success(v) => Success(Login(v, password))
    case Failure(msg) => Failure(msg)
  }

  /**
   * Validation of `Login` as the decorators are written: `@classmethod`
   * above `@field_validator` leaves the domain validator unregistered, so
   * every pair of strings is a login.
   */
  function ParseLoginAsWritten(email: string, password: string): (r: Result<Login, string>)
    ensures r.Success? && r.value.email == email && r.value.password == password
  {
    Success(Login(email, password))
  }

  /** As written, a login at a refused domain passes validation. */
  lemma LoginDomainUncheckedAsWritten(password: string)
    ensures ParseLoginAsWritten("a@b.COM", password).Success?
    ensures ParseLogin("a@b.COM", password).Failure?
  {
    UpperCaseDomainRefused(password);
  }

  /** A login with an upper-case domain is refused. */
  lemma UpperCaseDomainRefused(password: string)
    ensures ParseLogin("a@b.COM", password).Failure?
  {
    DomainIsCaseSensitive();
  }
}
