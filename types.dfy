/** The records the SQL-backed routes read and write (lib/types.ts). Timestamps are abstract
    instants: the routes only compare them, and a later instant is a larger number. */
module Types {
  import opened Wrappers

  datatype Role = Admin | Member

  datatype User = User(id: string, email: string, password: string, role: Role, createdAt: nat)

  /** `parentId == None` is a top-level folder. */
  datatype Folder = Folder(id: string, name: string, parentId: Option<string>, ownerId: string, createdAt: nat)

  /** `name` is the display name chosen by the user, `originalFileName` the uploaded file's
      own name; `folderId == None` is the root. */
  datatype Document = Document(
    id: string,
    name: string,
    originalFileName: string,
    fileType: string,
    url: string,
    folderId: Option<string>,
    ownerId: string,
    uploadedAt: nat)
}
