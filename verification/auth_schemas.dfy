/**
 * The password rules of the account schemas. A password is weak when it is
 * shorter than eight characters or made of letters only or of digits only;
 * registration refuses a weak password, and the new-password form first
 * demands that both copies agree.
 */
module AuthSchemas {
  import opened Common

  predicate IsLetter(c: char)
  {
    'a' <= c <= 'z' || 'A' <= c <= 'Z'
  }

  predicate IsDigit(c: char)
  {
    '0' <= c <= '9'
  }

  /** `str.isalpha()`: at least one character, and letters only. */
  predicate IsAlpha(s: string)
  {
    |s| > 0 && forall i | 0 <= i < |s| :: IsLetter(s[i])
  }

  /** `str.isnumeric()`: at least one character, and digits only. */
  predicate IsNumeric(s: string)
  {
    |s| > 0 && forall i | 0 <= i < |s| :: IsDigit(s[i])
  }

  const MinPasswordLength: nat := 8

  predicate WeakPassword(p: string)
  {
    |p| < MinPasswordLength || IsNumeric(p) || IsAlpha(p)
  }

  /**
   * `CreateUserForm.validate_password`: the password comes back unchanged
   * exactly when it has eight characters or more, one of them not a letter
   * and one of them not a digit.
   */
  function ValidatePassword(p: string): (r: Option<string>)
    ensures r.Some? <==>
      (|p| >= MinPasswordLength
       && (exists i | 0 <= i < |p| :: !IsLetter(p[i]))
       && (exists j | 0 <= j < |p| :: !IsDigit(p[j])))
    ensures r.Some? ==> r.value == p
  {
    if WeakPassword(p) then None else Some(p)
  }

  /** Nothing asks for a letter or a digit: eight spaces pass. */
  lemma SpacesPass()
    ensures ValidatePassword("        ") == Some("        ")
  {
    assert !IsLetter("        "[0]) && !IsDigit("        "[0]);
  }

  lemma OnlyLettersOrOnlyDigitsRefused()
    ensures ValidatePassword("abcdefgh").None?
    ensures ValidatePassword("12345678").None?
    ensures ValidatePassword("abc1234").None?
    ensures ValidatePassword("abcd1234") == Some("abcd1234")
  {
    assert !IsDigit("abcd1234"[0]) && !IsLetter("abcd1234"[4]);
  }

  /**
   * The outcome of `NewPasswordDataSchema.passwords_validate`. Both refusals
   * build a `pydantic.ValidationError` from a message string, which has no
   * such constructor: the construction raises a `TypeError` in either
   * branch, whether its result was to be raised or returned.
   */
  datatype NewPasswordCheck =
    | PasswordsAccepted(password: string)
    /** The copies differ: the `raise` branch. */
    | PasswordsDiffer
    /** The copies agree but the password is weak: the `return` branch, which raises just the same. */
    | WeakPasswordRefused

  /**
   * The copies are compared first; a matching pair is then held to the
   * registration rule.
   */
  function CheckNewPassword(password1: string, password2: string): (r: NewPasswordCheck)
    ensures r.PasswordsDiffer? <==> password1 != password2
    ensures r.WeakPasswordRefused? <==> password1 == password2 && ValidatePassword(password1).None?
    ensures r.PasswordsAccepted? ==> password1 == password2 && ValidatePassword(password1) == Some(r.password)
  {
    if password1 != password2 then PasswordsDiffer
    else if WeakPassword(password1) then WeakPasswordRefused
    else PasswordsAccepted(password1)
  }
}
