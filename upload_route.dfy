/** `POST /api/documents/upload`: stores the file in the blob store, then records its metadata
    row; if the row cannot be written, the blob is deleted again (best effort). */
module UploadRoute {
  import opened Wrappers
  import opened Types
  import opened Http
  import Text
  import Database

  /** The external calls the handler makes, in order. */
  datatype Effect = PutBlob(path: string) | InsertRow(row: Document) | DeleteBlob(url: string)

  /** The `folderId` form field as stored: `"null"` and `""` mean the root. */
  function NormalizeFolderId(field: Option<string>): (r: Option<string>)
    ensures r.None? <==> !Truthy(field) || field == Some("null")
    ensures r.Some? ==> Truthy(r) && r == field
  {
    if field == Some("null") || field == Some("") then None else field
  }

  /** `${userId}/${folderId || "root"}/${file.name}`. */
  function BlobPath(userId: string, folderId: Option<string>, fileName: string): (r: string)
    ensures |r| > |userId| + |fileName| + 1
    ensures r[..|userId| + 1] == userId + "/"
    ensures r[|r| - |fileName| - 1..] == "/" + fileName
    ensures !Truthy(folderId) ==> r == userId + "/root/" + fileName
  {
    userId + "/" + (if Truthy(folderId) then folderId.value else "root") + "/" + fileName
  }

  /** The path names its owner and its folder: when none of the three parts contains `/`,
      splitting the path at `/` gives them back, and joining them rebuilds the path. */
  lemma BlobPathSegments(userId: string, folderId: Option<string>, fileName: string)
    requires '/' !in userId && '/' !in fileName
    requires folderId.Some? ==> '/' !in folderId.value
    ensures Text.Split(BlobPath(userId, folderId, fileName), '/') ==
              [userId, if Truthy(folderId) then folderId.value else "root", fileName]
  {
    var folder := if Truthy(folderId) then folderId.value else "root";
    assert BlobPath(userId, folderId, fileName) == userId + ['/'] + folder + ['/'] + fileName;
    SplitThree(userId, folder, fileName, '/');
  }

  lemma SplitThree(a: string, b: string, c: string, sep: char)
    requires sep !in a && sep !in b && sep !in c
    ensures Text.Split(a + [sep] + b + [sep] + c, sep) == [a, b, c]
  {
    var tail := b + [sep] + c;
    assert a + [sep] + b + [sep] + c == a + [sep] + tail;
    Text.SplitAfter(a, tail, sep);
    Text.SplitAfter(b, c, sep);
    assert Text.Split(tail, sep) == [b] + Text.Split(c, sep);
    assert Text.Split(c, sep) == [c];
  }

  const PutFailedMessage := "Failed to upload file due to server error."
  const InsertFailedMessage := "Failed to save document metadata to database. Please check server logs for details."

  /** The metadata row written for an upload; the database assigns `id` and `uploadedAt`. */
  function NewRow(id: string, fileName: string, file: File, url: string, folderId: Option<string>,
                  ownerId: string, now: nat): Document {
    Document(id, fileName, file.name, file.fileType, url, folderId, ownerId, now)
  }

  /** Every row points at a blob the store holds. */
  ghost predicate RowsBacked(documents: seq<Document>, urls: set<string>) {
    forall d :: d in documents ==> d.url in urls
  }

  /** The handler's `try` block, reached once the request is valid: put the blob at `path`,
      insert the row for it, and on an insert failure try to delete the blob again.
      `putUrl` is the URL the blob store returns, or `None` when the `put` throws;
      `insertOk` and `deleteOk` say whether the `INSERT` and the cleanup `del` succeed. */
  method Store(db: Database.Tables, blobs: Database.BlobStore, path: string, fileName: string, file: File,
               folderId: Option<string>, ownerId: string, putUrl: Option<string>,
               insertOk: bool, deleteOk: bool, newId: string, now: nat)
    returns (r: Reply<Document>, effects: seq<Effect>)
    modifies db`documents, blobs
    ensures |effects| >= 1 && effects[0] == PutBlob(path)
    ensures putUrl.None? ==>
              r == Failure(StatusServerError, PutFailedMessage) &&
              effects == [PutBlob(path)] && blobs.urls == old(blobs.urls)
    ensures r.Success? <==> putUrl.Some? && insertOk
    ensures r.Success? ==>
              r == Success(StatusCreated, NewRow(newId, fileName, file, putUrl.value, folderId, ownerId, now)) &&
              db.documents == old(db.documents) + [r.value] &&
              blobs.urls == old(blobs.urls) + {putUrl.value} &&
              effects == [PutBlob(path), InsertRow(r.value)]
    ensures !r.Success? ==> db.documents == old(db.documents)
    ensures putUrl.Some? && !insertOk ==>
              r == Failure(StatusServerError, InsertFailedMessage) &&
              var row := NewRow(newId, fileName, file, putUrl.value, folderId, ownerId, now);
              effects == (if putUrl.value != "" then [PutBlob(path), InsertRow(row), DeleteBlob(putUrl.value)]
                          else [PutBlob(path), InsertRow(row)]) &&
              blobs.urls == (if putUrl.value != "" && deleteOk then old(blobs.urls) + {putUrl.value} - {putUrl.value}
                             else old(blobs.urls) + {putUrl.value})
  {
    if putUrl.None? {
      return Failure(StatusServerError, PutFailedMessage), [PutBlob(path)];
    }
    var blobUrl := putUrl.value;
    blobs.urls := blobs.urls + {blobUrl};
    var row := NewRow(newId, fileName, file, blobUrl, folderId, ownerId, now);
    if !insertOk {
      effects := [PutBlob(path), InsertRow(row)];
      if blobUrl != "" {
        effects := [PutBlob(path), InsertRow(row), DeleteBlob(blobUrl)];
        if deleteOk {
          blobs.urls := blobs.urls - {blobUrl};
        }
      }
      return Failure(StatusServerError, InsertFailedMessage), effects;
    }
    db.documents := db.documents + [row];
    r, effects := Success(StatusCreated, row), [PutBlob(path), InsertRow(row)];
  }

  /** A store step keeps every row backed by a blob, provided the store hands out a URL it
      did not hold before (so the cleanup `del` cannot remove another row's blob). */
  lemma StoreKeepsRowsBacked(docs: seq<Document>, urls: set<string>, docs': seq<Document>, urls': set<string>,
                             row: Document, url: string, inserted: bool)
    requires RowsBacked(docs, urls) && url !in urls
    requires inserted ==> docs' == docs + [row] && row.url == url && urls' == urls + {url}
    requires !inserted ==> docs' == docs && (urls' == urls + {url} || urls' == urls + {url} - {url})
    ensures RowsBacked(docs', urls')
  {
  }

  /** The whole handler. Requests without a caller or without a file and name are refused
      before anything is written. */
  method Post(db: Database.Tables, blobs: Database.BlobStore, userId: Option<string>, file: Option<File>,
              fileName: Option<string>, folderField: Option<string>, putUrl: Option<string>,
              insertOk: bool, deleteOk: bool, newId: string, now: nat)
    returns (r: Reply<Document>, effects: seq<Effect>)
    modifies db, blobs
    ensures db.users == old(db.users) && db.folders == old(db.folders)
    ensures !Truthy(userId) ==> r == Failure(StatusUnauthorized, "Unauthorized: User ID missing")
    ensures Truthy(userId) && (file.None? || !Truthy(fileName)) ==>
              r == Failure(StatusBadRequest, "File and file name are required")
    ensures effects == [] <==> !Truthy(userId) || file.None? || !Truthy(fileName)
    ensures effects == [] ==> db.documents == old(db.documents) && blobs.urls == old(blobs.urls)
    ensures effects != [] ==>
              userId.Some? && file.Some? &&
              effects[0] == PutBlob(BlobPath(userId.value, NormalizeFolderId(folderField), file.value.name))
    ensures r.Success? <==> Truthy(userId) && file.Some? && Truthy(fileName) && putUrl.Some? && insertOk
    ensures r.Success? ==>
              r == Success(StatusCreated, NewRow(newId, fileName.value, file.value, putUrl.value,
                                                 NormalizeFolderId(folderField), userId.value, now)) &&
              db.documents == old(db.documents) + [r.value]
    ensures Truthy(userId) && file.Some? && Truthy(fileName) && putUrl.None? ==>
              r == Failure(StatusServerError, PutFailedMessage) && |effects| == 1
    ensures Truthy(userId) && file.Some? && Truthy(fileName) && putUrl.Some? && !insertOk ==>
              r == Failure(StatusServerError, InsertFailedMessage) &&
              |effects| == (if putUrl.value != "" then 3 else 2) &&
              effects[1].InsertRow? &&
              (putUrl.value != "" ==> effects[2] == DeleteBlob(putUrl.value)) &&
              blobs.urls == (if putUrl.value != "" && deleteOk then old(blobs.urls) - {putUrl.value}
                             else old(blobs.urls) + {putUrl.value})
    ensures !r.Success? ==> db.documents == old(db.documents)
    ensures RowsBacked(old(db.documents), old(blobs.urls)) && (putUrl.Some? ==> putUrl.value !in old(blobs.urls)) ==>
              RowsBacked(db.documents, blobs.urls)
  {
    if !Truthy(userId) {
      return Failure(StatusUnauthorized, "Unauthorized: User ID missing"), [];
    }
    var folderId := folderField;
    if folderId == Some("null") || folderId == Some("") {
      folderId := None;
    }
    assert folderId == NormalizeFolderId(folderField);
    if file.None? || !Truthy(fileName) {
      return Failure(StatusBadRequest, "File and file name are required"), [];
    }
    var path := BlobPath(userId.value, folderId, file.value.name);
    r, effects := Store(db, blobs, path, fileName.value, file.value, folderId, userId.value,
                        putUrl, insertOk, deleteOk, newId, now);
    if putUrl.Some? && putUrl.value !in old(blobs.urls) && RowsBacked(old(db.documents), old(blobs.urls)) {
      StoreKeepsRowsBacked(old(db.documents), old(blobs.urls), db.documents, blobs.urls,
                           NewRow(newId, fileName.value, file.value, putUrl.value, folderId, userId.value, now),
                           putUrl.value, r.Success?);
    }
  }
}
