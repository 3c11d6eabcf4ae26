/** The external stores the route handlers use: the three SQL tables (each a sequence of
    rows in table order) and the blob store, known by the URLs of the blobs it holds. */
module Database {
  import opened Types

  class Tables {
    var users: seq<User>
    var folders: seq<Folder>
    var documents: seq<Document>

    constructor (users: seq<User>, folders: seq<Folder>, documents: seq<Document>)
      ensures this.users == users && this.folders == folders && this.documents == documents
    {
      this.users := users;
      this.folders := folders;
      this.documents := documents;
    }
  }

  class BlobStore {
    var urls: set<string>

    constructor (urls: set<string>)
      ensures this.urls == urls
    {
      this.urls := urls;
    }
  }
}
