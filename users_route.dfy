/** `GET /api/users`: the admin-only list of all accounts, newest first, without passwords. */
module UsersRoute {
  import opened Wrappers
  import opened Types
  import opened Http
  import Seqs
  import Query

  /** The columns the listing selects: everything but the password. */
  datatype UserSummary = UserSummary(id: string, email: string, role: Role, createdAt: nat)

  function Summary(u: User): UserSummary {
    UserSummary(u.id, u.email, u.role, u.createdAt)
  }

  function Summaries(users: seq<User>): seq<UserSummary> {
    seq(|users|, i requires 0 <= i < |users| => Summary(users[i]))
  }

  /** `ORDER BY created_at DESC`. */
  function NewerOrSame(a: UserSummary, b: UserSummary): bool {
    a.createdAt >= b.createdAt
  }

  /** The first row with the caller's id exists and has the admin role. */
  ghost predicate IsAdmin(users: seq<User>, id: string) {
    exists i :: 0 <= i < |users| && users[i].id == id && users[i].role == Admin &&
      forall j :: 0 <= j < i ==> users[j].id != id
  }

  /** Either query failing (`queryFails`) yields the same 500 reply. */
  function Get(userId: Option<string>, users: seq<User>, queryFails: bool): (r: Reply<seq<UserSummary>>)
    ensures !Truthy(userId) ==> r == Failure(StatusUnauthorized, "Unauthorized")
    ensures Truthy(userId) && queryFails ==> r == Failure(StatusServerError, "Failed to fetch users")
    ensures Truthy(userId) && !queryFails && !IsAdmin(users, userId.value) ==>
              r == Failure(StatusForbidden, "Forbidden: Only admins can view users")
    ensures r.Success? <==> Truthy(userId) && !queryFails && IsAdmin(users, userId.value)
    ensures r.Success? ==> r.status == StatusOk && Query.SortedBy(r.value, NewerOrSame)
    ensures r.Success? ==> multiset(r.value) == multiset(Summaries(users))
  {
    if !Truthy(userId) then Failure(StatusUnauthorized, "Unauthorized")
    else if queryFails then Failure(StatusServerError, "Failed to fetch users")
    else
      var current := Seqs.Find(users, (u: User) => u.id == userId.value);
      if current.None? || current.value.role != Admin then
        Failure(StatusForbidden, "Forbidden: Only admins can view users")
      else
        Success(StatusOk, Query.OrderBy(Summaries(users), NewerOrSame))
  }

  /** No password leaves the server: every listed row is the summary of some account, and a
      summary has no password field. */
  lemma {:induction false} ListedRowsAreAccounts(userId: Option<string>, users: seq<User>, s: UserSummary)
    requires Get(userId, users, false).Success?
    requires s in Get(userId, users, false).value
    ensures exists i :: 0 <= i < |users| && s == Summary(users[i])
  {
    var listed := Get(userId, users, false).value;
    assert multiset(listed)[s] > 0;
    assert s in Summaries(users);
  }
}
