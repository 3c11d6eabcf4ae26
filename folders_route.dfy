/** `GET /api/folders` (the caller's folders by name) and `POST /api/folders` (create one). */
module FoldersRoute {
  import opened Wrappers
  import opened Types
  import opened Http
  import Seqs
  import Query
  import Database

  /** `ORDER BY name ASC` under the database's text collation `collate`. */
  function ByName(collate: (string, string) -> bool): (Folder, Folder) -> bool {
    (a: Folder, b: Folder) => collate(a.name, b.name)
  }

  lemma ByNameOrdering(collate: (string, string) -> bool)
    requires Query.Ordering(collate)
    ensures Query.Ordering(ByName(collate))
  {
    assert Query.Total(ByName(collate)) by {
      forall a: Folder, b: Folder ensures ByName(collate)(a, b) || ByName(collate)(b, a) {
        assert collate(a.name, b.name) || collate(b.name, a.name);
      }
    }
    assert Query.Transitive(ByName(collate)) by {
      forall a: Folder, b: Folder, c: Folder | ByName(collate)(a, b) && ByName(collate)(b, c)
        ensures ByName(collate)(a, c)
      {
        assert collate(a.name, b.name) && collate(b.name, c.name);
      }
    }
  }

  function Get(userId: Option<string>, folders: seq<Folder>, collate: (string, string) -> bool, queryFails: bool)
    : (r: Reply<seq<Folder>>)
    requires Query.Ordering(collate)
    ensures !Truthy(userId) ==> r == Failure(StatusUnauthorized, "Unauthorized")
    ensures Truthy(userId) && queryFails ==> r == Failure(StatusServerError, "Failed to fetch folders")
    ensures r.Success? <==> Truthy(userId) && !queryFails
    ensures r.Success? ==> r.status == StatusOk
    ensures r.Success? ==> forall i, j :: 0 <= i < j < |r.value| ==> collate(r.value[i].name, r.value[j].name)
    ensures r.Success? ==>
              (forall f :: multiset(r.value)[f] == if f.ownerId == userId.value then multiset(folders)[f] else 0)
  {
    if !Truthy(userId) then Failure(StatusUnauthorized, "Unauthorized")
    else if queryFails then Failure(StatusServerError, "Failed to fetch folders")
    else
      var owner := userId.value;
      var p := (f: Folder) => f.ownerId == owner;
      Seqs.FilterMultiset(folders, p);
      ByNameOrdering(collate);
      var sorted := Query.OrderBy(Seqs.Filter(folders, p), ByName(collate));
      assert forall i, j :: 0 <= i < j < |sorted| ==> ByName(collate)(sorted[i], sorted[j]);
      Success(StatusOk, sorted)
  }

  /** `POST`: the new folder carries the caller as owner and the `parentId` exactly as the
      request body gave it; the database assigns `newId` and `now`. */
  method Post(db: Database.Tables, userId: Option<string>, name: Option<string>, parentId: Option<string>,
              newId: string, now: nat, insertFails: bool)
    returns (r: Reply<Folder>)
    modifies db
    ensures db.users == old(db.users) && db.documents == old(db.documents)
    ensures !Truthy(userId) ==> r == Failure(StatusUnauthorized, "Unauthorized")
    ensures Truthy(userId) && !Truthy(name) ==> r == Failure(StatusBadRequest, "Folder name is required")
    ensures Truthy(userId) && Truthy(name) && insertFails ==> r == Failure(StatusServerError, "Failed to create folder")
    ensures r.Success? <==> Truthy(userId) && Truthy(name) && !insertFails
    ensures r.Success? ==> r == Success(StatusCreated, Folder(newId, name.value, parentId, userId.value, now))
    ensures r.Success? ==> db.folders == old(db.folders) + [r.value]
    ensures !r.Success? ==> db.folders == old(db.folders)
  {
    if !Truthy(userId) {
      return Failure(StatusUnauthorized, "Unauthorized");
    }
    if !Truthy(name) {
      return Failure(StatusBadRequest, "Folder name is required");
    }
    if insertFails {
      return Failure(StatusServerError, "Failed to create folder");
    }
    var folder := Folder(newId, name.value, parentId, userId.value, now);
    db.folders := db.folders + [folder];
    r := Success(StatusCreated, folder);
  }
}
