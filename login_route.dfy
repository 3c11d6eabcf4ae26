/** `POST /api/auth/login`: plain-text credential check against the first user row with the
    given email. */
module LoginRoute {
  import opened Wrappers
  import opened Types
  import opened Http
  import Seqs

  /** The first row with this email exists and holds this password. */
  ghost predicate CredentialsMatch(users: seq<User>, email: string, password: string) {
    exists i :: 0 <= i < |users| && users[i].email == email && users[i].password == password &&
      forall j :: 0 <= j < i ==> users[j].email != email
  }

  /** On success the payload is the user's id (`userId` in the JSON body). */
  function Post(email: Option<string>, password: Option<string>, users: seq<User>, queryFails: bool)
    : (r: Reply<string>)
    ensures !Truthy(email) || !Truthy(password) ==> r == Failure(StatusBadRequest, "Email and password are required")
    ensures Truthy(email) && Truthy(password) && queryFails ==>
              r == Failure(StatusServerError, "An error occurred during login")
    ensures r.Success? <==>
              Truthy(email) && Truthy(password) && !queryFails && CredentialsMatch(users, email.value, password.value)
    ensures Truthy(email) && Truthy(password) && !queryFails && !r.Success? ==>
              r == Failure(StatusUnauthorized, "Invalid credentials")
    ensures r.Success? ==> r.status == StatusOk
    ensures r.Success? ==>
              exists i :: 0 <= i < |users| && users[i].id == r.value &&
                users[i].email == email.value && users[i].password == password.value
  {
    if !Truthy(email) || !Truthy(password) then Failure(StatusBadRequest, "Email and password are required")
    else if queryFails then Failure(StatusServerError, "An error occurred during login")
    else
      var user := Seqs.Find(users, (u: User) => u.email == email.value);
      if user.None? || user.value.password != password.value then
        Failure(StatusUnauthorized, "Invalid credentials")
      else
        Success(StatusOk, user.value.id)
  }
}
