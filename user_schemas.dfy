/**
 * The request schemas of backend/schemas/users.py: field constraints and
 * the `email_must_be_valid_domain`, `name_must_be_valid` and
 * `password_must_be_strong` validators, and the update form.
 */
module UserSchemas {
  import opened Wrappers
  import opened Text
  import opened Attributes
  import opened UserModel

  /** The mail domains the schemas accept: `v.endswith((".com", ".fr", ".net"))`. */
  predicate HasAllowedDomain(v: string) {
    EndsWith(v, ".com") || EndsWith(v, ".fr") || EndsWith(v, ".net")
  }

  const DomainMessage: string := "Domain name must end with .com, .fr or .net"

  /** `email_must_be_valid_domain`: the address unchanged, or the domain error. */
  function EmailMustBeValidDomain(v: string): (r: Result<string, string>)
    ensures r.Success? <==> HasAllowedDomain(v)
    ensures r.Success? ==> r.value == v
    ensures r.Failure? ==> r.error == DomainMessage
  {
    if !HasAllowedDomain(v) then Failure(DomainMessage) else Success(v)
  }

  /** The suffix test is exact: an upper-case domain is refused, its lower-case twin accepted. */
  lemma DomainIsCaseSensitive()
    ensures EmailMustBeValidDomain("a@b.COM").Failure?
    ensures EmailMustBeValidDomain("a@b.com") == Success("a@b.com")
  {
    assert "a@b.COM"[3..] == ".COM";
    assert "a@b.COM"[4..] == "COM";
    assert "a@b.com"[3..] == ".com";
  }

  const BlankNameMessage: string := "Le nom ne peut pas être vide"

  /** `name_must_be_valid`: the stripped name, or an error when nothing but whitespace is left. */
  function NameMustBeValid(v: string): (r: Result<string, string>)
    ensures r.Failure? <==> forall i :: 0 <= i < |v| ==> IsSpace(v[i])
    ensures r.Failure? ==> r.error == BlankNameMessage
    ensures r.Success? ==> r.value == Strip(v) && r.value != []
    ensures r.Success? ==> !IsSpace(r.value[0]) && !IsSpace(r.value[|r.value| - 1])
  {
    StripEmptyIff(v);
    StripTrimmed(v);
    if Strip(v) == [] then Failure(BlankNameMessage) else Success(Strip(v))
  }

  /** The character classes a strong password needs, in the order they are checked. */
  datatype CharClass = Uppercase | Lowercase | Digit

  /** The first class, in the order upper case, lower case, digit, that `p` lacks. */
  function FirstMissingClass(p: string): (r: Option<CharClass>)
    ensures r == Some(Uppercase) <==> !HasUpper(p)
    ensures r == Some(Lowercase) <==> HasUpper(p) && !HasLower(p)
    ensures r == Some(Digit) <==> HasUpper(p) && HasLower(p) && !HasDigit(p)
    ensures r.None? <==> HasUpper(p) && HasLower(p) && HasDigit(p)
  {
    if !HasUpper(p) then Some(Uppercase)
    else if !HasLower(p) then Some(Lowercase)
    else if !HasDigit(p) then Some(Digit)
    else None
  }

  function WeakPasswordMessage(c: CharClass): string {
    match c
    case Uppercase => "Le mot de passe doit contenir au moins une majuscule"
    case Lowercase => "Le mot de passe doit contenir au moins une minuscule"
    case Digit => "Le mot de passe doit contenir au moins un chiffre"
  }

  /** `password_must_be_strong`: the password unchanged, or the message for the first missing class. */
  function PasswordMustBeStrong(v: string): (r: Result<string, string>)
    ensures r.Success? <==> HasUpper(v) && HasLower(v) && HasDigit(v)
    ensures r.Success? ==> r.value == v
    ensures r.Failure? ==> FirstMissingClass(v).Some? && r.error == WeakPasswordMessage(FirstMissingClass(v).value)
  {
    match FirstMissingClass(v)
    case Some(c) => Failure(WeakPasswordMessage(c))
    case None => Success(v)
  }

  /** The body of a create request, before validation. */
  datatype CreateRequest = CreateRequest(
    display_name: string,
    country: Option<string>,
    email: string,
    avatar: Option<string>,
    is_online: bool,
    currently_playing: Option<string>,
    spotify_id: string,
    password: string)

  /** A field that fails, named as pydantic reports it, with its message. */
  type FieldError = (string, string)

  /** `display_name`: 2 to 50 characters, then `name_must_be_valid`. */
  function CheckDisplayName(v: string): (r: Result<string, string>)
    ensures r.Success? <==> 2 <= |v| <= 50 && !(forall i :: 0 <= i < |v| ==> IsSpace(v[i]))
    ensures r.Success? ==> r.value == Strip(v)
  {
    if !(2 <= |v| <= 50) then Failure("display_name must have 2 to 50 characters")
    else NameMustBeValid(v)
  }

  /** `country`: at most 2 characters when given. */
  predicate CountryAccepted(v: Option<string>) {
    v.Some? ==> |v.value| <= 2
  }

  /** `password`: 8 to 50 characters, then `password_must_be_strong`. */
  function CheckPassword(v: string): (r: Result<string, string>)
    ensures r.Success? <==> 8 <= |v| <= 50 && HasUpper(v) && HasLower(v) && HasDigit(v)
  {
    if !(8 <= |v| <= 50) then Failure("password must have 8 to 50 characters")
    else PasswordMustBeStrong(v)
  }

  /** The fields of a create request that carry constraints. */
  const CreateFields: set<string> := {"display_name", "country", "email", "spotify_id", "password"}

  /** One field's part of the report: its error when its check fails, nothing otherwise. */
  function FieldReport(ok: bool, name: string, message: string): (r: seq<FieldError>)
    requires name in CreateFields
    ensures |r| == if ok then 0 else 1
    ensures forall e :: e in r ==> e.0 == name && e.0 in CreateFields
  {
    if ok then [] else [(name, message)]
  }

  /** The failing fields of a create request, in declaration order. */
  function CreateErrors(q: CreateRequest): (r: seq<FieldError>)
    ensures r == [] <==>
      && CheckDisplayName(q.display_name).Success? && CountryAccepted(q.country)
      && EmailMustBeValidDomain(q.email).Success? && |q.spotify_id| >= 5 && CheckPassword(q.password).Success?
    ensures forall e :: e in r ==> e.0 in CreateFields
  {
    var name := CheckDisplayName(q.display_name);
    var email := EmailMustBeValidDomain(q.email);
    var password := CheckPassword(q.password);
    FieldReport(name.Success?, "display_name", if name.Failure? then name.error else "")
    + FieldReport(CountryAccepted(q.country), "country", "country must have at most 2 characters")
    + FieldReport(email.Success?, "email", DomainMessage)
    + FieldReport(|q.spotify_id| >= 5, "spotify_id", "spotify_id must have at least 5 characters")
    + FieldReport(password.Success?, "password", if password.Failure? then password.error else "")
  }

  /**
   * Validation of `UserCreate`: every field is checked and every failure
   * reported; an accepted request carries the stripped display name. The
   * length bounds apply to the name before it is stripped.
   */
  function ParseUserCreate(q: CreateRequest): (r: Result<UserCreate, seq<FieldError>>)
    ensures r.Success? <==>
      && 2 <= |q.display_name| <= 50 && !(forall i :: 0 <= i < |q.display_name| ==> IsSpace(q.display_name[i]))
      && CountryAccepted(q.country)
      && HasAllowedDomain(q.email)
      && |q.spotify_id| >= 5
      && 8 <= |q.password| <= 50 && HasUpper(q.password) && HasLower(q.password) && HasDigit(q.password)
    ensures r.Success? ==> r.value == UserCreate(
      Profile(Some(q.spotify_id), q.country, Strip(q.display_name), q.email, q.avatar, q.is_online, q.currently_playing),
      q.password)
    ensures r.Failure? ==> r.error != [] && forall e :: e in r.error ==> e.0 in CreateFields
  {
    var errors := CreateErrors(q);
    if errors != [] then Failure(errors)
    else
      var name := CheckDisplayName(q.display_name).value;
      Success(UserCreate(
        Profile(Some(q.spotify_id), q.country, name, q.email, q.avatar, q.is_online, q.currently_playing),
        q.password))
  }

  /**
   * Validation of `UserCreate` as the decorators are written. With
   * `@classmethod` stacked above `@field_validator`, pydantic finds a
   * `classmethod` object where it looks for its validator marker and
   * registers none of the three validators: only the `Field` constraints
   * apply, and the name is stored as sent.
   */
  function ParseUserCreateAsWritten(q: CreateRequest): (r: Result<UserCreate, seq<FieldError>>)
    ensures r.Success? <==>
      2 <= |q.display_name| <= 50 && CountryAccepted(q.country) && |q.spotify_id| >= 5 && 8 <= |q.password| <= 50
    ensures r.Success? ==> r.value == UserCreate(
      Profile(Some(q.spotify_id), q.country, q.display_name, q.email, q.avatar, q.is_online, q.currently_playing),
      q.password)
    ensures r.Failure? ==> r.error != [] && forall e :: e in r.error ==> e.0 in CreateFields
  {
    var errors :=
      FieldReport(2 <= |q.display_name| <= 50, "display_name", "display_name must have 2 to 50 characters")
      + FieldReport(CountryAccepted(q.country), "country", "country must have at most 2 characters")
      + FieldReport(|q.spotify_id| >= 5, "spotify_id", "spotify_id must have at least 5 characters")
      + FieldReport(8 <= |q.password| <= 50, "password", "password must have 8 to 50 characters");
    if errors != [] then Failure(errors)
    else
      Success(UserCreate(
        Profile(Some(q.spotify_id), q.country, q.display_name, q.email, q.avatar, q.is_online, q.currently_playing),
        q.password))
  }

  /**
   * As written, a blank name, a foreign domain and a password with no
   * upper-case letter or digit are all accepted; with the validators
   * registered the same request is refused.
   */
  lemma ValidatorsSkippedAsWritten()
    ensures var q := CreateRequest("  ", None, "a@b.org", None, false, None, "abcde", "password");
      && ParseUserCreateAsWritten(q).Success?
      && ParseUserCreateAsWritten(q).value.profile.display_name == "  "
      && ParseUserCreate(q).Failure?
  {
    var q := CreateRequest("  ", None, "a@b.org", None, false, None, "abcde", "password");
    assert ParseUserCreateAsWritten(q).Success?;
    assert IsSpace(q.display_name[0]) && IsSpace(q.display_name[1]);
    assert CheckDisplayName(q.display_name).Failure?;
  }

  /** The length bound is checked before stripping, so a stored name can be shorter than two characters. */
  lemma StrippedNameCanBeShort()
    ensures var r := ParseUserCreate(CreateRequest(" a ", None, "x@y.fr", None, false, None, "abcde", "Passw0rd!"));
      r.Success? && r.value.profile.display_name == "a"
  {
    var q := CreateRequest(" a ", None, "x@y.fr", None, false, None, "abcde", "Passw0rd!");
    SampleName();
    SampleEmail();
    SamplePassword();
    assert CreateErrors(q) == [];
  }

  lemma SampleName()
    ensures CheckDisplayName(" a ") == Success("a")
  {
    assert !IsSpace(" a "[1]);
    assert LStrip(" a ") == "a " by { assert " a "[1..] == "a "; }
    assert RStrip("a ") == "a" by { assert "a "[..1] == "a"; }
  }

  lemma SampleEmail()
    ensures EmailMustBeValidDomain("x@y.fr") == Success("x@y.fr")
  {
    assert "x@y.fr"[3..] == ".fr";
  }

  lemma SamplePassword()
    ensures CheckPassword("Passw0rd!") == Success("Passw0rd!")
  {
    var p := "Passw0rd!";
    assert IsUpper(p[0]) && IsLower(p[1]) && IsDigit(p[5]);
  }

  /** The update form: every field defaults to `None`. */
  datatype UpdateForm = UpdateForm(
    display_name: Option<string>,
    country: Option<string>,
    email: Option<string>,
    avatar: Option<string>,
    currently_playing: Option<string>)

  /** `UserUpdate` accepts a display name of 2 to 50 characters and a country of at most 2, when given. */
  predicate UpdateFormAccepted(f: UpdateForm) {
    (f.display_name.Some? ==> 2 <= |f.display_name.value| <= 50) && CountryAccepted(f.country)
  }

  function AsValue(v: Option<string>): Value {
    if v.Some? then Text(v.value) else Null
  }

  /** `vars(form).items()`: every field in declaration order, `None` included. */
  function FormVars(f: UpdateForm): (data: seq<Entry>)
    ensures |data| == 5
    ensures forall i :: 0 <= i < |data| ==> data[i].0 in ProfileColumns && (data[i].1 == Null || data[i].1.Text?)
    ensures forall i :: 0 <= i < |data| ==> data[i].0 != "is_online" && data[i].0 != "spotify_id"
  {
    [("display_name", AsValue(f.display_name)), ("country", AsValue(f.country)), ("email", AsValue(f.email)),
     ("avatar", AsValue(f.avatar)), ("currently_playing", AsValue(f.currently_playing))]
  }

  /** One `vars` entry assigns its field the form's value when it is not `None`, and nothing else. */
  lemma FormEntryAssigns(field: string, v: Option<string>, name: string)
    ensures LastAssigned([(field, AsValue(v))], name) == if name == field then Supplied(v) else None
  {
    LastAssignedSnoc([], (field, AsValue(v)), name);
    assert [] + [(field, AsValue(v))] == [(field, AsValue(v))];
  }

  /**
   * The `update` loop over `vars(form)` skips `None`, so it assigns exactly
   * the form fields that were filled in, each its value, and no other name.
   */
  lemma FormVarsAssign(f: UpdateForm, name: string)
    ensures LastAssigned(FormVars(f), name) ==
      if name == "display_name" then Supplied(f.display_name)
      else if name == "country" then Supplied(f.country)
      else if name == "email" then Supplied(f.email)
      else if name == "avatar" then Supplied(f.avatar)
      else if name == "currently_playing" then Supplied(f.currently_playing)
      else None
  {
    var e1 := [("display_name", AsValue(f.display_name))];
    var e2 := [("country", AsValue(f.country))];
    var e3 := [("email", AsValue(f.email))];
    var e4 := [("avatar", AsValue(f.avatar))];
    var e5 := [("currently_playing", AsValue(f.currently_playing))];
    assert FormVars(f) == e1 + e2 + e3 + e4 + e5;
    FormEntryAssigns("display_name", f.display_name, name);
    FormEntryAssigns("country", f.country, name);
    FormEntryAssigns("email", f.email, name);
    FormEntryAssigns("avatar", f.avatar, name);
    FormEntryAssigns("currently_playing", f.currently_playing, name);
    LastAssignedAppend(e1, e2, name);
    LastAssignedAppend(e1 + e2, e3, name);
    LastAssignedAppend(e1 + e2 + e3, e4, name);
    LastAssignedAppend(e1 + e2 + e3 + e4, e5, name);
  }
}
