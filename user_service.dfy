/** `UserServiceImpl`: the user table and the administrator's edits to it. A user is
    modelled by the fields the service reads and writes (the rest of the `User` entity is not
    part of this model); the table keeps e-mails unique, as `findByEmail` expects. */
module UserService {
  import opened Wrappers
  import opened Text
  import opened ServiceErrors

  datatype UserRecord = UserRecord(email: string, firstName: string, lastName: string)

  /** The body of an edit (`UserDto`): each field may be missing. */
  datatype UserEdit = UserEdit(email: Option<string>, firstName: Option<string>, lastName: Option<string>)

  predicate EmailTaken(users: map<int, UserRecord>, email: string) {
    exists id :: id in users && users[id].email == email
  }

  predicate UniqueEmails(users: map<int, UserRecord>) {
    forall a, b :: a in users && b in users && users[a].email == users[b].email ==> a == b
  }

  /** The value an edit gives a name field: the edit's when it has text, the old one
      otherwise. */
  function NameAfter(given: Option<string>, current: string): (name: string)
    ensures HasText(given) ==> name == given.value
    ensures !HasText(given) ==> name == current
  {
    if HasText(given) then given.value else current
  }

  /** `updateUserById`: the user first; then an e-mail with text that differs from the
      user's is refused when another user has it and taken otherwise; then each name with
      text replaces the old one. */
  function Edited(users: map<int, UserRecord>, id: int, edit: UserEdit): (Result<UserRecord, ServiceError>, map<int, UserRecord>)
  {
    if id !in users then (Err(UserNotFoundWithId(id)), users)
    else
      var user := users[id];
      var changesEmail := HasText(edit.email) && edit.email.value != user.email;
      if changesEmail && EmailTaken(users, edit.email.value) then (Err(IllegalState(EMAIL_ALREADY_TAKEN)), users)
      else
        var updated := UserRecord(if changesEmail then edit.email.value else user.email,
                                  NameAfter(edit.firstName, user.firstName), NameAfter(edit.lastName, user.lastName));
        (Ok(updated), users[id := updated])
  }

  /** An edit never gives two users the same e-mail. */
  lemma EditKeepsEmailsUnique(users: map<int, UserRecord>, id: int, edit: UserEdit)
    requires UniqueEmails(users)
    ensures UniqueEmails(Edited(users, id, edit).1)
  {
    var (result, after) := Edited(users, id, edit);
    if result.Ok? {
      forall a, b | a in after && b in after && after[a].email == after[b].email
        ensures a == b
      {
        if a != id && b != id {
        } else if a == id && b != id {
          assert after[b] == users[b];
          if after[id].email != users[id].email {
            assert EmailTaken(users, after[id].email);
          }
        } else if a != id && b == id {
          assert after[a] == users[a];
          if after[id].email != users[id].email {
            assert EmailTaken(users, after[id].email);
          }
        }
      }
    }
  }

  /** Submitting a user's own e-mail again is never refused as taken, and fields without
      text keep their values. */
  lemma UnchangedFieldsAccepted(users: map<int, UserRecord>, id: int, edit: UserEdit)
    requires id in users
    requires edit.email.None? || edit.email.value == users[id].email
    ensures Edited(users, id, edit).0.Ok?
    ensures !HasText(edit.firstName) ==> Edited(users, id, edit).0.value.firstName == users[id].firstName
    ensures !HasText(edit.lastName) ==> Edited(users, id, edit).0.value.lastName == users[id].lastName
    ensures Edited(users, id, edit).0.value.email == users[id].email
  {
  }

  /** An e-mail another user already has is refused and nothing changes. */
  lemma TakenEmailRefused(users: map<int, UserRecord>, id: int, other: int, edit: UserEdit)
    requires id in users && other in users
    requires HasText(edit.email) && edit.email.value != users[id].email && users[other].email == edit.email.value
    ensures Edited(users, id, edit) == (Err(IllegalState(EMAIL_ALREADY_TAKEN)), users)
  {
  }

  /** Making the same edit twice has the effect of making it once. */
  lemma EditIdempotent(users: map<int, UserRecord>, id: int, edit: UserEdit)
    requires Edited(users, id, edit).0.Ok?
    ensures Edited(Edited(users, id, edit).1, id, edit).1 == Edited(users, id, edit).1
  {
  }

  class UserServiceImpl {
    var users: map<int, UserRecord>

    predicate Valid()
      reads this
    {
      UniqueEmails(users)
    }

    constructor ()
      ensures users == map[] && Valid()
    {
      users := map[];
    }

    /** `getCurrentUserByEmail`: the one user with the e-mail. */
    method GetCurrentUserByEmail(email: string) returns (result: Result<UserRecord, ServiceError>)
      requires Valid()
      ensures result.Ok? <==> EmailTaken(users, email)
      ensures result.Ok? ==> result.value.email == email && exists id :: id in users && users[id] == result.value
      ensures result.Err? ==> result.error == UserNotFoundWithEmail(email)
    {
      if !EmailTaken(users, email) {
        return Err(UserNotFoundWithEmail(email));
      }
      var id :| id in users && users[id].email == email;
      result := Ok(users[id]);
    }

    function GetUserById(id: int): (result: Result<UserRecord, ServiceError>)
      reads this
      ensures result.Ok? <==> id in users
      ensures result.Ok? ==> result.value == users[id]
      ensures result.Err? ==> result.error == UserNotFoundWithId(id)
    {
      if id in users then Ok(users[id]) else Err(UserNotFoundWithId(id))
    }

    function GetAllUsers(): map<int, UserRecord>
      reads this
    {
      users
    }

    /** `updateUserById`. */
    method UpdateUserById(id: int, edit: UserEdit) returns (result: Result<UserRecord, ServiceError>)
      requires Valid()
      modifies this
      ensures Valid()
      ensures result == Edited(old(users), id, edit).0
      ensures users == Edited(old(users), id, edit).1
    {
      if id !in users {
        return Err(UserNotFoundWithId(id));
      }
      var user := users[id];
      if HasText(edit.email) && edit.email.value != user.email {
        if EmailTaken(users, edit.email.value) {
          return Err(IllegalState(EMAIL_ALREADY_TAKEN));
        }
        user := user.(email := edit.email.value);
      }
      if HasText(edit.firstName) {
        user := user.(firstName := edit.firstName.value);
      }
      if HasText(edit.lastName) {
        user := user.(lastName := edit.lastName.value);
      }
      EditKeepsEmailsUnique(users, id, edit);
      users := users[id := user];
      result := Ok(user);
    }

    /** `deleteUserById`. */
    method DeleteUserById(id: int) returns (result: Result<(), ServiceError>)
      requires Valid()
      modifies this
      ensures Valid()
      ensures id !in old(users) ==> result == Err(UserNotFoundWithId(id)) && users == old(users)
      ensures id in old(users) ==> result == Ok(()) && users == old(users) - {id}
    {
      if id !in users {
        return Err(UserNotFoundWithId(id));
      }
      users := users - {id};
      result := Ok(());
    }
  }
}
