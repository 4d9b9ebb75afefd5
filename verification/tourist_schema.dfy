/** The schema of the tourist registration endpoint. Its string fields are
    normalised (trimmed, the e-mail also lower-cased) before they are
    checked, and the normalised values are what the handler receives. */
module TouristSchema {

  import opened Common
  import opened Text

  /** `.trim().toLowerCase()` on the e-mail. */
  function NormaliseEmail(s: string): (r: string)
    ensures |r| <= |s|
  {
    ToLower(Trim(s))
  }

  /** Lower-casing a string with no surrounding white space creates none. */
  lemma ToLowerKeepsEnds(t: string)
    requires t == [] || (!IsSpace(t[0]) && !IsSpace(t[|t| - 1]))
    ensures var r := ToLower(t); r == [] || (!IsSpace(r[0]) && !IsSpace(r[|r| - 1]))
  {
    var r := ToLower(t);
    if r != [] {
      assert r[0] == LowerChar(t[0]) && r[|r| - 1] == LowerChar(t[|t| - 1]);
    }
  }

  /** A normalised e-mail has no surrounding white space and no upper-case
      letter, and normalising it again changes nothing. */
  lemma NormaliseEmailIdempotent(s: string)
    ensures var r := NormaliseEmail(s);
      && (r == [] || (!IsSpace(r[0]) && !IsSpace(r[|r| - 1])))
      && (forall i :: 0 <= i < |r| ==> !IsUpper(r[i]))
      && NormaliseEmail(r) == r
  {
    var t := Trim(s);
    ToLowerKeepsEnds(t);
    var r := ToLower(t);
    TrimmedIsFixed(r);
    ToLowerNormalises(t);
    assert NormaliseEmail(r) == ToLower(r);
  }

  /** The password rules: 8 to 100 characters with an upper-case letter, a
      lower-case letter and a digit somewhere. */
  predicate StrongPassword(p: string)
  {
    && 8 <= |p| <= 100
    && (exists i :: 0 <= i < |p| && IsUpper(p[i]))
    && (exists i :: 0 <= i < |p| && IsLower(p[i]))
    && (exists i :: 0 <= i < |p| && IsDigit(p[i]))
  }

  /** The strings `^\+?[0-9]{7,15}$` matches: an optional plus sign, then 7 to 15 digits and nothing else. */
  predicate PhoneShape(p: string)
  {
    if |p| >= 1 && p[0] == '+' then AllDigits(p[1..]) && 7 <= |p| - 1 <= 15
    else AllDigits(p) && 7 <= |p| <= 15
  }

  datatype TouristBody = TouristBody(
    email: Option<string>,
    password: Option<string>,
    name: Option<string>,
    phone: Option<string>,
    country: Option<string>)

  datatype TouristInput = TouristInput(email: string, password: string, name: string, phone: string, country: string)

  /** `registerTouristSchema.parse`. */
  function ParseRegisterTourist(b: TouristBody, isEmail: string -> bool): (r: Option<TouristInput>)
    ensures r.Some? <==>
      && b.email.Some? && isEmail(NormaliseEmail(b.email.value))
      && b.password.Some? && StrongPassword(b.password.value)
      && b.name.Some? && 2 <= |Trim(b.name.value)| <= 50
      && b.phone.Some? && PhoneShape(Trim(b.phone.value))
      && b.country.Some? && |Trim(b.country.value)| <= 50
    ensures r.Some? ==>
      && r.value.email == NormaliseEmail(b.email.value)
      && r.value.password == b.password.value
      && r.value.name == Trim(b.name.value)
      && r.value.phone == Trim(b.phone.value)
      && r.value.country == Trim(b.country.value)
  {
    if && b.email.Some? && isEmail(NormaliseEmail(b.email.value))
       && b.password.Some? && StrongPassword(b.password.value)
       && b.name.Some? && 2 <= |Trim(b.name.value)| <= 50
       && b.phone.Some? && PhoneShape(Trim(b.phone.value))
       && b.country.Some? && |Trim(b.country.value)| <= 50
    then Some(TouristInput(NormaliseEmail(b.email.value), b.password.value, Trim(b.name.value),
                           Trim(b.phone.value), Trim(b.country.value)))
    else None
  }

  /** Accepted registrations carry normalised values: parsing the accepted
      values again gives the same values. */
  lemma ParseRegisterTouristStable(b: TouristBody, isEmail: string -> bool)
    requires ParseRegisterTourist(b, isEmail).Some?
    ensures var v := ParseRegisterTourist(b, isEmail).value;
      ParseRegisterTourist(TouristBody(Some(v.email), Some(v.password), Some(v.name), Some(v.phone), Some(v.country)), isEmail) == Some(v)
  {
    var v := ParseRegisterTourist(b, isEmail).value;
    NormaliseEmailIdempotent(b.email.value);
    TrimIdempotent(b.name.value);
    TrimIdempotent(b.phone.value);
    TrimIdempotent(b.country.value);
    AcceptsNormalised(v, isEmail);
  }

  /** Values that are already normalised and satisfy the rules parse to themselves. */
  lemma AcceptsNormalised(v: TouristInput, isEmail: string -> bool)
    requires isEmail(v.email) && NormaliseEmail(v.email) == v.email
    requires StrongPassword(v.password)
    requires 2 <= |v.name| <= 50 && Trim(v.name) == v.name
    requires PhoneShape(v.phone) && Trim(v.phone) == v.phone
    requires |v.country| <= 50 && Trim(v.country) == v.country
    ensures ParseRegisterTourist(TouristBody(Some(v.email), Some(v.password), Some(v.name), Some(v.phone), Some(v.country)), isEmail) == Some(v)
  {
  }

  /** Some passwords and phone numbers, each side of the rules. */
  lemma PasswordAndPhoneExamples()
    ensures StrongPassword("Secret123") && !StrongPassword("secret123") && !StrongPassword("Secret1")
    ensures PhoneShape("+9779812345678") && PhoneShape("1234567")
    ensures !PhoneShape("123456") && !PhoneShape("+12 345678") && !PhoneShape("++1234567")
  {
    assert IsUpper("Secret123"[0]) && IsLower("Secret123"[1]) && IsDigit("Secret123"[6]);
    assert !IsDigit("+12 345678"[3]);
    assert !IsDigit("++1234567"[1]);
  }
}
