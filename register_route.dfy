/** `POST /api/auth/register`: creates a member account unless the email is taken. */
module RegisterRoute {
  import opened Wrappers
  import opened Types
  import opened Http
  import Seqs
  import Database
  import LoginRoute

  /** The row the `INSERT` creates: role `member`, id and `created_at` from the database. */
  function NewMember(id: string, email: string, password: string, now: nat): User {
    User(id, email, password, Member, now)
  }

  ghost predicate EmailTaken(users: seq<User>, email: string) {
    exists i :: 0 <= i < |users| && users[i].email == email
  }

  ghost predicate UniqueEmails(users: seq<User>) {
    forall i, j :: 0 <= i < j < |users| ==> users[i].email != users[j].email
  }

  /** How many accounts use `email`. */
  function EmailCount(users: seq<User>, email: string): (n: nat)
    ensures n == 0 <==> !EmailTaken(users, email)
  {
    var p := (u: User) => u.email == email;
    Seqs.FilterNone(users, p);
    var c := Seqs.Filter(users, p);
    |c|
  }

  /** The `SELECT` and the `INSERT` can each fail (`selectFails`, `insertFails`); either
      failure yields the same 500 reply and leaves the table as it was. */
  method Post(db: Database.Tables, email: Option<string>, password: Option<string>,
              newId: string, now: nat, selectFails: bool, insertFails: bool)
    returns (r: Reply<string>)
    modifies db
    ensures db.folders == old(db.folders) && db.documents == old(db.documents)
    ensures !Truthy(email) || !Truthy(password) ==> r == Failure(StatusBadRequest, "Email and password are required")
    ensures Truthy(email) && Truthy(password) && !selectFails && EmailTaken(old(db.users), email.value) ==>
              r == Failure(StatusConflict, "User with this email already exists")
    ensures Truthy(email) && Truthy(password) && (selectFails || (!EmailTaken(old(db.users), email.value) && insertFails)) ==>
              r == Failure(StatusServerError, "An error occurred during registration")
    ensures r.Success? <==>
              Truthy(email) && Truthy(password) && !selectFails && !insertFails && !EmailTaken(old(db.users), email.value)
    ensures r.Success? ==> r == Success(StatusCreated, newId)
    ensures r.Success? ==> db.users == old(db.users) + [NewMember(newId, email.value, password.value, now)]
    ensures !r.Success? ==> db.users == old(db.users)
    ensures UniqueEmails(old(db.users)) ==> UniqueEmails(db.users)
  {
    if !Truthy(email) || !Truthy(password) {
      return Failure(StatusBadRequest, "Email and password are required");
    }
    if selectFails {
      return Failure(StatusServerError, "An error occurred during registration");
    }
    var p := (u: User) => u.email == email.value;
    Seqs.FilterNone(db.users, p);
    var existing := Seqs.Filter(db.users, p);
    if |existing| > 0 {
      assert existing[0] in existing;
      return Failure(StatusConflict, "User with this email already exists");
    }
    if insertFails {
      return Failure(StatusServerError, "An error occurred during registration");
    }
    db.users := db.users + [NewMember(newId, email.value, password.value, now)];
    r := Success(StatusCreated, newId);
  }

  /** Registering the same email twice in a row: the second attempt is refused with 409 and
      the table holds exactly one account for that email. */
  method RegisterTwice(db: Database.Tables, email: string, password: string,
                       firstId: string, secondId: string, firstNow: nat, secondNow: nat)
    returns (first: Reply<string>, second: Reply<string>)
    requires email != "" && password != ""
    requires !EmailTaken(db.users, email)
    modifies db
    ensures first == Success(StatusCreated, firstId)
    ensures second == Failure(StatusConflict, "User with this email already exists")
    ensures db.users == old(db.users) + [NewMember(firstId, email, password, firstNow)]
    ensures EmailCount(db.users, email) == 1
  {
    first := Post(db, Some(email), Some(password), firstId, firstNow, false, false);
    assert db.users[|db.users| - 1].email == email;
    second := Post(db, Some(email), Some(password), secondId, secondNow, false, false);
    var p := (u: User) => u.email == email;
    Seqs.FilterAppend(old(db.users), [NewMember(firstId, email, password, firstNow)], p);
    Seqs.FilterNone(old(db.users), p);
  }

  /** Register, then log in: once registration succeeds, the same credentials log in as the
      new account, provided the email was unique in the table to begin with. */
  lemma {:induction false} LoginAfterRegister(users: seq<User>, id: string, email: string, password: string, now: nat)
    requires email != "" && password != ""
    requires !EmailTaken(users, email)
    ensures LoginRoute.Post(Some(email), Some(password), users + [NewMember(id, email, password, now)], false)
              == Success(StatusOk, id)
  {
    var after := users + [NewMember(id, email, password, now)];
    assert LoginRoute.CredentialsMatch(after, email, password) by {
      assert after[|users|].email == email && after[|users|].password == password;
      assert forall j :: 0 <= j < |users| ==> after[j].email != email;
    }
    var r := LoginRoute.Post(Some(email), Some(password), after, false);
    assert r.Success?;
    var i :| 0 <= i < |after| && after[i].id == r.value && after[i].email == email && after[i].password == password;
    assert i == |users|;
  }
}
