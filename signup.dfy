/**
 * The sign-up endpoint of the front-end server
 * (frontend/src/server/api/signup.ts): every field of the form must be
 * truthy; the reply echoes the profile fields and stores nothing.
 */
module Signup {
  import opened Wrappers

  /** The JSON values a request body can carry, with JavaScript's truthiness. */
  datatype JsValue =
    | Undefined
    | Null
    | Bool(b: bool)
    | Num(n: int)
    | NaN
    | Str(s: string)
    | Arr(items: seq<JsValue>)
    | Obj(fields: map<string, JsValue>)

  /** The values JavaScript's `!` turns into `true`. */
  predicate Falsy(v: JsValue) {
    || v == Undefined
    || v == Null
    || v == Bool(false)
    || v == Num(0)
    || v == NaN
    || v == Str("")
  }

  /** Destructuring a property the body lacks yields `undefined`. */
  function Field(body: map<string, JsValue>, name: string): JsValue {
    if name in body then body[name] else Undefined
  }

  const Required: seq<string> := ["firstName", "lastName", "email", "password", "dob", "address", "acceptTerms"]
  const Echoed: set<string> := {"firstName", "lastName", "email", "dob", "address"}

  const MissingFieldsMessage := "Tous les champs sont requis."
  const SuccessMessage := "Inscription réussie!"

  datatype Reply = Reply(statusCode: int, message: string, data: Option<map<string, JsValue>>)

  /**
   * The handler: 400 when any of the seven fields is falsy, otherwise 200
   * with the five profile fields and neither the password nor the terms
   * flag.
   */
  function HandleSignup(body: map<string, JsValue>): (r: Reply)
    ensures r.statusCode == 400 <==> exists f :: f in Required && Falsy(Field(body, f))
    ensures r.statusCode == 400 ==> r.message == MissingFieldsMessage && r.data == None
    ensures r.statusCode != 400 ==> r.statusCode == 200 && r.message == SuccessMessage && r.data.Some?
    ensures r.data.Some? ==> r.data.value.Keys == Echoed
    ensures r.data.Some? ==> forall k :: k in r.data.value ==> r.data.value[k] == Field(body, k)
  {
    if || Falsy(Field(body, "firstName"))
       || Falsy(Field(body, "lastName"))
       || Falsy(Field(body, "email"))
       || Falsy(Field(body, "password"))
       || Falsy(Field(body, "dob"))
       || Falsy(Field(body, "address"))
       || Falsy(Field(body, "acceptTerms"))
    then
      Reply(400, MissingFieldsMessage, None)
    else
      Reply(200, SuccessMessage, Some(map[
        "firstName" := Field(body, "firstName"),
        "lastName" := Field(body, "lastName"),
        "email" := Field(body, "email"),
        "dob" := Field(body, "dob"),
        "address" := Field(body, "address")]))
  }

  /**
   * The password and the terms flag only gate the reply: any two truthy
   * values give the same reply, so neither can leak into it.
   */
  lemma SecretsNotEchoed(body: map<string, JsValue>, password: JsValue, terms: JsValue)
    requires !Falsy(Field(body, "password")) && !Falsy(password)
    requires !Falsy(Field(body, "acceptTerms")) && !Falsy(terms)
    ensures HandleSignup(body["password" := password]["acceptTerms" := terms]) == HandleSignup(body)
  {
    var b := body["password" := password]["acceptTerms" := terms];
    forall f | f in Echoed ensures Field(b, f) == Field(body, f) {
    }
    assert forall f :: f in Required && f != "password" && f != "acceptTerms" ==> Field(b, f) == Field(body, f);
  }
}
