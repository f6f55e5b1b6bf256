/** The login and registration form schemas of the client (`loginSchema`,
    `registerSchema`). The e-mail format test of the schema library is the input predicate
    `isEmail`. */
module AuthValidation {
  import opened Schema

  const EMAIL_REQUIRED: string := "Email є обов'язковим"
  const EMAIL_INVALID: string := "Введіть коректний email"
  const PASSWORD_REQUIRED: string := "Пароль є обов'язковим"
  const PASSWORD_SHORT: string := "Пароль повинен містити щонайменше 8 символів"
  const PASSWORD_WEAK: string := "Пароль повинен містити великі та малі літери, а також цифри"
  const FIRST_NAME_REQUIRED: string := "Ім'я є обов'язковим"
  const FIRST_NAME_SHORT: string := "Ім'я повинно містити щонайменше 2 символи"
  const LAST_NAME_REQUIRED: string := "Прізвище є обов'язковим"
  const LAST_NAME_SHORT: string := "Прізвище повинно містити щонайменше 2 символи"
  const CONFIRM_REQUIRED: string := "Підтвердження паролю є обов'язковим"
  const PASSWORDS_DIFFER: string := "Паролі не співпадають"

  /** The e-mail field of both forms: present, then well formed. */
  function EmailIssues(email: string, isEmail: string -> bool): seq<Issue> {
    MinLength(email, 1, "email", EMAIL_REQUIRED) + Check(isEmail(email), "email", EMAIL_INVALID)
  }

  // ---------------------------------------------------------------------------------------
  // loginSchema

  datatype LoginForm = LoginForm(email: string, password: string)

  function LoginIssues(form: LoginForm, isEmail: string -> bool): seq<Issue> {
    EmailIssues(form.email, isEmail)
    + MinLength(form.password, 1, "password", PASSWORD_REQUIRED)
    + MinLength(form.password, 8, "password", PASSWORD_SHORT)
  }

  /** A login form is accepted exactly when the e-mail is non-empty and well formed and the
      password has at least eight characters; what those characters are does not matter. */
  lemma LoginAccepted(form: LoginForm, isEmail: string -> bool)
    ensures LoginIssues(form, isEmail) == [] <==> |form.email| >= 1 && isEmail(form.email) && |form.password| >= 8
  {
  }

  // ---------------------------------------------------------------------------------------
  // registerSchema

  datatype RegisterForm = RegisterForm(firstName: string, lastName: string, email: string,
                                       password: string, confirmPassword: string)

  /** The characters `.` matches in a pattern without the `s` flag: all but line
      terminators. */
  predicate IsLineTerminator(c: char) {
    c == '\n' || c == '\r' || c == '\U{2028}' || c == '\U{2029}'
  }

  /** `(?=.*[class])` at the start of the string: a character of the class occurs before the
      first line terminator. */
  predicate LookaheadFinds(s: string, inClass: char -> bool) {
    exists i :: 0 <= i < |s| && inClass(s[i]) && forall j :: 0 <= j < i ==> !IsLineTerminator(s[j])
  }

  predicate IsAsciiLower(c: char) { 'a' <= c <= 'z' }
  predicate IsAsciiUpper(c: char) { 'A' <= c <= 'Z' }
  predicate IsAsciiDigit(c: char) { '0' <= c <= '9' }

  /** `/^(?=.*[a-z])(?=.*[A-Z])(?=.*\d)/`. */
  predicate PasswordPattern(s: string) {
    LookaheadFinds(s, IsAsciiLower) && LookaheadFinds(s, IsAsciiUpper) && LookaheadFinds(s, IsAsciiDigit)
  }

  /** Every field's checks, then the `refine` that compares the two passwords; the schema
      library still runs the refinement when a length or pattern check has failed. */
  function RegisterIssues(form: RegisterForm, isEmail: string -> bool): seq<Issue> {
    MinLength(form.firstName, 1, "firstName", FIRST_NAME_REQUIRED)
    + MinLength(form.firstName, 2, "firstName", FIRST_NAME_SHORT)
    + MinLength(form.lastName, 1, "lastName", LAST_NAME_REQUIRED)
    + MinLength(form.lastName, 2, "lastName", LAST_NAME_SHORT)
    + EmailIssues(form.email, isEmail)
    + MinLength(form.password, 1, "password", PASSWORD_REQUIRED)
    + MinLength(form.password, 8, "password", PASSWORD_SHORT)
    + Check(PasswordPattern(form.password), "password", PASSWORD_WEAK)
    + MinLength(form.confirmPassword, 1, "confirmPassword", CONFIRM_REQUIRED)
    + Check(form.password == form.confirmPassword, "confirmPassword", PASSWORDS_DIFFER)
  }

  /** A registration is accepted exactly when both names have two characters or more, the
      e-mail is well formed, the password has eight characters with a lower-case letter, an
      upper-case letter and a digit, and the confirmation repeats it. */
  lemma RegisterAccepted(form: RegisterForm, isEmail: string -> bool)
    ensures RegisterIssues(form, isEmail) == [] <==>
      && |form.firstName| >= 2 && |form.lastName| >= 2
      && |form.email| >= 1 && isEmail(form.email)
      && |form.password| >= 8 && PasswordPattern(form.password)
      && form.confirmPassword == form.password
  {
  }

  /** Two different passwords are reported on the confirmation field. */
  lemma MismatchReportedOnConfirmation(form: RegisterForm, isEmail: string -> bool)
    requires form.password != form.confirmPassword
    ensures Issue("confirmPassword", PASSWORDS_DIFFER) in RegisterIssues(form, isEmail)
  {
    var issues := RegisterIssues(form, isEmail);
    var last := Check(form.password == form.confirmPassword, "confirmPassword", PASSWORDS_DIFFER);
    assert issues[|issues| - |last|..] == last;
  }

  /** The letter classes are ASCII: a password without a Latin lower-case letter, however
      many Cyrillic letters it has, is refused as too weak. */
  lemma NoLatinLowerIsWeak(form: RegisterForm, isEmail: string -> bool)
    requires forall i :: 0 <= i < |form.password| ==> !IsAsciiLower(form.password[i])
    ensures !PasswordPattern(form.password)
    ensures Issue("password", PASSWORD_WEAK) in RegisterIssues(form, isEmail)
  {
    var issues := RegisterIssues(form, isEmail);
    var front := MinLength(form.firstName, 1, "firstName", FIRST_NAME_REQUIRED)
      + MinLength(form.firstName, 2, "firstName", FIRST_NAME_SHORT)
      + MinLength(form.lastName, 1, "lastName", LAST_NAME_REQUIRED)
      + MinLength(form.lastName, 2, "lastName", LAST_NAME_SHORT)
      + EmailIssues(form.email, isEmail)
      + MinLength(form.password, 1, "password", PASSWORD_REQUIRED)
      + MinLength(form.password, 8, "password", PASSWORD_SHORT);
    var weak := Check(PasswordPattern(form.password), "password", PASSWORD_WEAK);
    assert issues[|front|..|front| + |weak|] == weak;
  }

  /** A lower-case letter, an upper-case letter and a digit on the first line satisfy the
      pattern wherever they stand on it. */
  lemma {:induction false} PatternFromWitnesses(s: string, lower: nat, upper: nat, digit: nat)
    requires lower < |s| && upper < |s| && digit < |s|
    requires IsAsciiLower(s[lower]) && IsAsciiUpper(s[upper]) && IsAsciiDigit(s[digit])
    requires forall j :: 0 <= j < |s| ==> !IsLineTerminator(s[j])
    ensures PasswordPattern(s)
  {
    assert LookaheadFinds(s, IsAsciiLower) by { assert IsAsciiLower(s[lower]); }
    assert LookaheadFinds(s, IsAsciiUpper) by { assert IsAsciiUpper(s[upper]); }
    assert LookaheadFinds(s, IsAsciiDigit) by { assert IsAsciiDigit(s[digit]); }
  }
}
