/** The registration and login schemas of the user endpoints. Whether a
    string is an e-mail address is decided by the validator library; here it
    is the parameter `isEmail`. Lengths are counted in characters. */
module AuthSchema {

  import opened Common

  /** `UserRoleEnum`. */
  function ParseRole(s: string): (r: Option<Role>)
    ensures r == Some(Tourist) <==> s == "TOURIST"
    ensures r == Some(Tutor) <==> s == "TUTOR"
    ensures r.None? <==> s !in {"TOURIST", "TUTOR"}
  {
    if s == "TOURIST" then Some(Tourist)
    else if s == "TUTOR" then Some(Tutor)
    else None
  }

  datatype RegisterBody = RegisterBody(
    name: Option<string>,
    email: Option<string>,
    password: Option<string>,
    phone: Option<string>,
    country: Option<string>,
    role: Option<string>)

  datatype RegisterInput = RegisterInput(name: string, email: string, password: string, phone: string, country: string, role: Role)

  /** `registerUserSchema.parse`: length bounds on every field, a valid
      e-mail, and a role that defaults to TOURIST. */
  function ParseRegisterUser(b: RegisterBody, isEmail: string -> bool): (r: Option<RegisterInput>)
    ensures r.Some? <==>
      && b.name.Some? && |b.name.value| >= 2
      && b.email.Some? && isEmail(b.email.value)
      && b.password.Some? && 6 <= |b.password.value| <= 50
      && b.phone.Some? && 6 <= |b.phone.value| <= 20
      && b.country.Some? && |b.country.value| >= 2
      && (b.role.None? || b.role.value in {"TOURIST", "TUTOR"})
    ensures r.Some? ==>
      && r.value.name == b.name.value && r.value.email == b.email.value && r.value.password == b.password.value
      && r.value.phone == b.phone.value && r.value.country == b.country.value
      && r.value.role == (if b.role.None? then Tourist else ParseRole(b.role.value).value)
  {
    var role := if b.role.None? then Some(Tourist) else ParseRole(b.role.value);
    if && b.name.Some? && |b.name.value| >= 2
       && b.email.Some? && isEmail(b.email.value)
       && b.password.Some? && 6 <= |b.password.value| <= 50
       && b.phone.Some? && 6 <= |b.phone.value| <= 20
       && b.country.Some? && |b.country.value| >= 2
       && role.Some?
    then Some(RegisterInput(b.name.value, b.email.value, b.password.value, b.phone.value, b.country.value, role.value))
    else None
  }

  datatype LoginBody = LoginBody(email: Option<string>, password: Option<string>)

  datatype LoginInput = LoginInput(email: string, password: string)

  /** `loginUserSchema.parse`: a valid e-mail and a password of at least six characters. */
  function ParseLogin(b: LoginBody, isEmail: string -> bool): (r: Option<LoginInput>)
    ensures r.Some? <==> b.email.Some? && isEmail(b.email.value) && b.password.Some? && |b.password.value| >= 6
    ensures r.Some? ==> r.value == LoginInput(b.email.value, b.password.value)
  {
    if b.email.Some? && isEmail(b.email.value) && b.password.Some? && |b.password.value| >= 6
    then Some(LoginInput(b.email.value, b.password.value))
    else None
  }

  /** Every password registration accepts, login accepts too; login has no
      upper bound, so a 51-character password can be sent to login but never
      registered. */
  lemma PasswordRulesAgree(b: RegisterBody, isEmail: string -> bool, long: string)
    requires ParseRegisterUser(b, isEmail).Some?
    requires |long| == 51
    ensures ParseLogin(LoginBody(b.email, b.password), isEmail).Some?
    ensures ParseLogin(LoginBody(b.email, Some(long)), isEmail).Some?
    ensures ParseRegisterUser(b.(password := Some(long)), isEmail).None?
  {
  }
}
