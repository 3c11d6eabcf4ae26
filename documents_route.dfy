/** `GET /api/documents`: the caller's documents in one folder (or at the root), newest first. */
module DocumentsRoute {
  import opened Wrappers
  import opened Types
  import opened Http
  import Seqs
  import Query

  /** `ORDER BY uploaded_at DESC`. */
  function NewerOrSame(a: Document, b: Document): bool {
    a.uploadedAt >= b.uploadedAt
  }

  /** The folder a listing is scoped to: an absent parameter or the string `"null"` selects
      the query for root documents (`folder_id IS NULL`); any other value is a folder id. */
  function Scope(folderParam: Option<string>): Option<string> {
    if folderParam.None? || folderParam == Some("null") then None else folderParam
  }

  /** The `WHERE` clause of either query. */
  function Selects(owner: string, scope: Option<string>): Document -> bool {
    (d: Document) => d.ownerId == owner && d.folderId == scope
  }

  function Get(userId: Option<string>, folderParam: Option<string>, documents: seq<Document>, queryFails: bool)
    : (r: Reply<seq<Document>>)
    ensures !Truthy(userId) ==> r == Failure(StatusUnauthorized, "Unauthorized")
    ensures Truthy(userId) && queryFails ==> r == Failure(StatusServerError, "Failed to fetch documents")
    ensures r.Success? <==> Truthy(userId) && !queryFails
    ensures r.Success? ==> r.status == StatusOk && Query.SortedBy(r.value, NewerOrSame)
    ensures r.Success? ==> forall d :: d in r.value ==> d.ownerId == userId.value
    ensures r.Success? && (folderParam.None? || folderParam == Some("null")) ==>
              forall d :: d in r.value ==> d.folderId.None?
    ensures r.Success? && folderParam.Some? && folderParam != Some("null") ==>
              forall d :: d in r.value ==> d.folderId == folderParam
    ensures r.Success? ==>
              (forall d :: multiset(r.value)[d] ==
                 if d.ownerId == userId.value && d.folderId == Scope(folderParam) then multiset(documents)[d] else 0)
  {
    if !Truthy(userId) then Failure(StatusUnauthorized, "Unauthorized")
    else if queryFails then Failure(StatusServerError, "Failed to fetch documents")
    else
      var p := Selects(userId.value, Scope(folderParam));
      Seqs.FilterMultiset(documents, p);
      var rows := Seqs.Filter(documents, p);
      var sorted := Query.OrderBy(rows, NewerOrSame);
      assert forall d :: d in sorted ==> p(d) by {
        forall d | d in sorted ensures p(d) {
          assert multiset(sorted)[d] > 0;
        }
      }
      Success(StatusOk, sorted)
  }
}
