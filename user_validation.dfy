/** The schema of the administrator's user-editing form (`updateUserSchema`). The e-mail
    format test is the input predicate `isEmail`. */
module UserValidation {
  import opened Schema
  import AuthValidation

  datatype UpdateUserForm = UpdateUserForm(email: string, firstName: string, lastName: string, roles: seq<int>)

  const ROLES_EMPTY: string := "Виберіть хоча б одну роль"

  function UpdateUserIssues(form: UpdateUserForm, isEmail: string -> bool): seq<Issue> {
    AuthValidation.EmailIssues(form.email, isEmail)
    + MinLength(form.firstName, 1, "firstName", AuthValidation.FIRST_NAME_REQUIRED)
    + MinLength(form.firstName, 2, "firstName", AuthValidation.FIRST_NAME_SHORT)
    + MinLength(form.lastName, 1, "lastName", AuthValidation.LAST_NAME_REQUIRED)
    + MinLength(form.lastName, 2, "lastName", AuthValidation.LAST_NAME_SHORT)
    + Check(|form.roles| > 0, "roles", ROLES_EMPTY)
  }

  /** The form is accepted exactly when the e-mail is non-empty and well formed, both names
      have at least two characters and at least one role is chosen. */
  lemma UpdateUserAccepted(form: UpdateUserForm, isEmail: string -> bool)
    ensures UpdateUserIssues(form, isEmail) == [] <==>
      |form.email| >= 1 && isEmail(form.email) && |form.firstName| >= 2 && |form.lastName| >= 2 && |form.roles| > 0
  {
  }

  /** A user with no role is always refused, whatever else the form says. */
  lemma NoRoleRefused(form: UpdateUserForm, isEmail: string -> bool)
    requires form.roles == []
    ensures Issue("roles", ROLES_EMPTY) in UpdateUserIssues(form, isEmail)
  {
    var issues := UpdateUserIssues(form, isEmail);
    assert issues[|issues| - 1] == Issue("roles", ROLES_EMPTY);
  }
}
