/**
 * `signUpSchema`: the sign-up form's constraints. The e-mail format test is
 * a parameter, and the secret code comes from the build environment, where
 * it may be missing.
 */
module SignUpSchema {
  import opened Wrappers
  import Js

  datatype Field = Name | Email | Password | Secret

  /** One reported problem: the field (`path[0]`) and its message. */
  datatype Issue = Issue(field: Field, message: string)

  datatype SignUpForm = SignUpForm(name: string, email: string, password: string, secret: string)

  const NameMissing: string := "Navn skal udfyldes"
  const BadEmail: string := "Ugyldig email"
  const ShortPassword: string := "Kodeord skal være mindst 6 tegn"
  const WrongSecret: string := "Forkert hemmelig kode"

  /** `val === SECRET_CODE`: an undefined code equals no string. */
  predicate SecretMatches(val: string, secretCode: Option<string>)
  {
    secretCode == Some(val)
  }

  /** The constraints, stated declaratively. */
  ghost predicate Accepts(d: SignUpForm, isEmail: string -> bool, secretCode: Option<string>)
  {
    && |d.name| >= 1
    && isEmail(d.email)
    && Js.Length(d.password) >= 6
    && secretCode.Some? && d.secret == secretCode.value
  }

  /** The message each field reports. */
  function MessageOf(field: Field): string
  {
    match field
    case Name => NameMissing
    case Email => BadEmail
    case Password => ShortPassword
    case Secret => WrongSecret
  }

  /** The issue of one field's constraint, with that field's message: reported exactly when the constraint is broken. */
  function Check(broken: bool, field: Field): (r: seq<Issue>)
    ensures Issue(field, MessageOf(field)) in r <==> broken
    ensures forall x :: x in r ==> x.field == field && x.message == MessageOf(field)
  {
    if broken then [Issue(field, MessageOf(field))] else []
  }

  /**
   * All issues, in the schema's field order: each broken constraint is
   * reported once, and nothing else is.
   */
  function Issues(d: SignUpForm, isEmail: string -> bool, secretCode: Option<string>): (r: seq<Issue>)
    ensures Issue(Name, NameMissing) in r <==> d.name == []
    ensures Issue(Email, BadEmail) in r <==> !isEmail(d.email)
    ensures Issue(Password, ShortPassword) in r <==> Js.Length(d.password) < 6
    ensures Issue(Secret, WrongSecret) in r <==> !(secretCode.Some? && d.secret == secretCode.value)
    ensures forall x :: x in r ==> x.message == MessageOf(x.field)
  {
    Check(|d.name| < 1, Name)
    + Check(!isEmail(d.email), Email)
    + Check(Js.Length(d.password) < 6, Password)
    + Check(!SecretMatches(d.secret, secretCode), Secret)
  }

  /**
   * `signUpSchema.safeParse(d)`: the form itself exactly when every
   * constraint holds, otherwise the non-empty list of issues.
   */
  function SafeParse(d: SignUpForm, isEmail: string -> bool, secretCode: Option<string>): (r: Result<SignUpForm, seq<Issue>>)
    ensures r.Ok? <==> Accepts(d, isEmail, secretCode)
    ensures r.Ok? ==> r.value == d
    ensures r.Err? ==> r.error != []
  {
    var issues := Issues(d, isEmail, secretCode);
    if issues == [] then Ok(d) else Err(issues)
  }

  /** Without a configured secret code nobody can sign up, and the secret is always among the complaints. */
  lemma NoSecretCodeRejectsAll(d: SignUpForm, isEmail: string -> bool)
    ensures SafeParse(d, isEmail, None).Err?
    ensures Issue(Secret, WrongSecret) in SafeParse(d, isEmail, None).error
  {
    var issues := Issues(d, isEmail, None);
    assert issues[|issues| - 1] == Issue(Secret, WrongSecret);
  }
}
