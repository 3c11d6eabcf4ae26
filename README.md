# family-documents, modelled in Dafny

This project models the core of a small family document manager. A user owns a forest of folders and can upload documents into them. An admin can list all accounts. The model covers:

- **The in-memory demo store (`MockDb`)** of `lib/data.ts`. It is a class with three tables (`users`, `folders`, `documents`) and the finders, creates, in-place updates and deletes the module exposes. That includes the cascading folder delete, whose fixpoint loop is a `while` loop proved to compute exactly the subtree of the deleted id.
- **The API route handlers.** Each one guards its input, then runs one query and answers with a status code:
  - `GET /api/documents` (`DocumentsRoute`)
  - `GET`/`POST /api/folders` (`FoldersRoute`)
  - `POST /api/auth/register` (`RegisterRoute`)
  - `POST /api/auth/login` (`LoginRoute`)
  - `GET /api/users` (`UsersRoute`)

  SQL tables are sequences of rows in table order (`Database.Tables`). A `SELECT … WHERE` is a filter and an `ORDER BY` is a stable sort under an abstract total ordering (`Query`). An `INSERT` appends.
- **The upload protocol** of `POST /api/documents/upload` (`UploadRoute`). It puts the blob, then inserts the metadata row. If the insert fails, it makes one best-effort delete of the blob. The handler is an imperative method over the row table and a blob store (`Database.BlobStore`, the set of blob URLs it holds). It also returns the sequence of external calls it makes.
- **The upload dialog** (`UploadDialog`). It is a class with the component's four state fields. It covers the MIME allow-list, the display name pre-filled from the file name, the guards of the upload button, and the form it sends.
- **The document list helpers** (`DocumentList`): the MIME-to-icon classifier, the search filter, and the indented pre-order folder options of the "move" picker.

The helper modules are:

- `Seqs`: `filter`/`find`
- `Text`: `split`, `join`, `trim`, `toLowerCase`, `includes`, `startsWith`
- `Http`: status codes, replies, the JavaScript truthiness of `string | null`
- `Types`: the records of `lib/types.ts`
- `Wrappers`: `Option`

Outside inputs are parameters of the operations:

- fresh ids and timestamps
- the outcome of each database statement (a `…Fails` flag)
- the URL `put` returns (`None` when it throws)
- the outcomes of the insert and the cleanup delete
- what `fetch` yields

## Model

| member | source | states |
|---|---|---|
| MockDb.Store.constructor | lib/data.ts:41-49 | the store starts with the two seeded accounts (admin, then member, both with password `password`) and no folders or documents |
| MockDb.Store.FindUserByEmail | lib/data.ts:58 | `None` exactly when no user has the email; otherwise the first user in table order with that email |
| MockDb.Store.FindUserById | lib/data.ts:59 | `None` exactly when no user has the id; otherwise the first user with that id |
| MockDb.Store.CreateUser | lib/data.ts:60-64 | appends exactly one user with the given email, password and role (default `member`); earlier users and the other tables are unchanged; no duplicate-email check |
| MockDb.Store.FindFoldersByOwner | lib/data.ts:69 | exactly the folders of the owner, each as often as in the table |
| MockDb.Store.FindFolderById | lib/data.ts:70 | `None` exactly when no folder has the id; otherwise the first folder with that id |
| MockDb.Store.CreateFolder | lib/data.ts:71-75 | appends one folder whose parent is stored as given (default `null`), with no check; other tables unchanged |
| MockDb.Store.UpdateFolder | lib/data.ts:76-80 | for an unknown id returns `None` and changes nothing; otherwise renames only the first folder with that id, keeps its parent and owner, leaves every other folder and table unchanged, and returns the renamed folder |
| MockDb.Pass | lib/data.ts:87-92 | one `forEach` pass only adds ids that lie in every closed set holding `id`; it reports a change exactly when it added an id; a pass that adds nothing leaves the set closed under parent links |
| MockDb.CollectSubtree | lib/data.ts:83-93 | the loop terminates (the set only grows, inside `{id}` plus the folder ids) and ends with exactly `Subtree`, the least set holding `id` that is closed under parent links |
| MockDb.SubtreeClosed | lib/data.ts:88-89 | the subtree holds `id` and holds the id of every folder whose parent link points into it |
| MockDb.SubtreeIsReachable | lib/data.ts:83-93 | an id is in the subtree exactly when it is `id` or reachable from `id` by following parent links downwards |
| MockDb.SubtreeSupported | lib/data.ts:88-89 | every id in the subtree other than `id` belongs to a folder whose parent is in the subtree |
| MockDb.Store.DeleteFolder | lib/data.ts:81-99 | the folders outside the subtree remain and so do the documents whose key `folderId ?? ""` is outside it, both in table order; users unchanged; the result is true exactly when some folder or document was in the subtree |
| MockDb.RemainingFolders | lib/data.ts:96 | the delete's folder filter drops nothing exactly when no folder id is in the removed set |
| MockDb.RemainingDocuments | lib/data.ts:97 | the delete's document filter drops nothing exactly when no document's key `folderId ?? ""` is in the removed set |
| MockDb.RemainingFoldersMember | lib/data.ts:96 | a folder remains exactly when it was in the table and its id is not removed |
| MockDb.RemainingDocumentsMember | lib/data.ts:97 | a document remains exactly when it was in the table and its key `folderId ?? ""` is not removed |
| MockDb.DeleteLeavesNoDanglingParent | lib/data.ts:83-96 | no remaining folder has a parent link into the removed set |
| MockDb.DeleteRemovesChildrenOfMissingId | lib/data.ts:83-96 | a folder whose parent is the deleted id is removed even when no folder has that id, provided the id is non-empty (the source's truthiness test treats an empty `parentId` as no parent) |
| MockDb.DeleteKeepsRootDocuments | lib/data.ts:97 | when no folder has the empty id (`uid()` never yields one), a root document (`folderId` null, key `""`) survives a delete exactly when the deleted id is not the empty string |
| MockDb.Store.FindDocumentsByFolderAndOwner | lib/data.ts:104-105 | exactly the owner's documents whose `folderId` equals the argument (null matches root documents only), each as often as in the table |
| MockDb.Store.FindDocumentById | lib/data.ts:106 | `None` exactly when no document has the id; otherwise the first one |
| MockDb.Store.CreateDocument | lib/data.ts:107-119 | appends exactly one document with the given fields and timestamp; other tables unchanged |
| MockDb.Merge | lib/data.ts:120-124 | `Object.assign` with a `name`/`folderId` update never changes id, type, url, owner or upload time |
| MockDb.Store.UpdateDocument | lib/data.ts:120-124 | for an unknown id returns `None` and changes nothing; otherwise merges the update into only the first document with that id and returns it |
| MockDb.Store.DeleteDocument | lib/data.ts:125-129 | removes every document with the id, keeps the rest in order, and returns true exactly when some document had the id |
| MockDb.OtherDocuments | lib/data.ts:127 | the document filter drops nothing exactly when no document has the id |
| MockDb.OtherDocumentsMember | lib/data.ts:127 | a document remains after a document delete exactly when its id differs |
| Seqs.FilterMember | lib/data.ts:69 | `filter` keeps exactly the elements that are in the input and satisfy the predicate |
| Seqs.FilterMultiset | lib/data.ts:105 | `filter` keeps each selected element as often as it occurs and drops the others |
| Seqs.FilterAppend | lib/data.ts:96-97 | `filter` keeps relative order: filtering a concatenation is concatenating the filtered parts |
| Seqs.Find | lib/data.ts:58 | `find` yields `None` exactly when no element matches, and otherwise the first matching element |
| Query.OrderBy | app/api/documents/route.ts:24 | `ORDER BY` returns the same rows with the same multiplicities, each row ordered before the ones after it |
| DocumentsRoute.Get | app/api/documents/route.ts:8-39 | 401 without a caller; 500 when the query fails; otherwise 200 with exactly the caller's documents in the scoped folder (an absent or `"null"` parameter means root only, any other value that exact folder), newest first |
| FoldersRoute.ByNameOrdering | app/api/folders/route.ts:19 | ordering folders by name under a total, transitive collation is itself an ordering |
| FoldersRoute.Get | app/api/folders/route.ts:8-26 | 401 without a caller; 500 when the query fails; otherwise 200 with exactly the caller's folders, sorted by name ascending |
| FoldersRoute.Post | app/api/folders/route.ts:28-50 | 401 without a caller and 400 without a name, with nothing inserted; 500 when the insert fails; otherwise one folder is appended, owned by the caller, with the parent stored as given, and returned with 201 |
| RegisterRoute.EmailCount | app/api/auth/register/route.ts:14-15 | the number of accounts with an email is zero exactly when the email is not taken |
| RegisterRoute.Post | app/api/auth/register/route.ts:5-34 | 400 without email or password; 409 when the email is taken; 500 when a statement fails; otherwise one `member` account is appended and its id returned with 201; a failure leaves the table unchanged; unique emails stay unique |
| RegisterRoute.RegisterTwice | app/api/auth/register/route.ts:14-24 | registering the same email twice in a row succeeds, then answers 409, and leaves exactly one account with that email |
| RegisterRoute.LoginAfterRegister | app/api/auth/register/route.ts:20-26 | after a successful registration of an untaken email, logging in with the same credentials returns 200 with the new account's id |
| LoginRoute.Post | app/api/auth/login/route.ts:5-25 | 400 without email or password; 500 when the query fails; 200 with the user id exactly when the first account with that email has that password; otherwise the same 401 "Invalid credentials" for an unknown email and a wrong password; the table is never changed |
| UsersRoute.Get | app/api/users/route.ts:8-32 | 401 without a caller; 500 when a query fails; 403 unless the first account with the caller's id is an admin; otherwise 200 with the summaries of all accounts, newest first |
| UsersRoute.ListedRowsAreAccounts | app/api/users/route.ts:21-26 | every listed row is the summary of some account, and a summary has no password field |
| UploadRoute.NormalizeFolderId | app/api/documents/upload/route.ts:24-27 | the folder field becomes the root exactly when it is absent, empty or `"null"`; otherwise it is kept |
| UploadRoute.BlobPath | app/api/documents/upload/route.ts:42 | the blob path starts with the owner's id and `/`, ends with `/` and the file name, and uses `root` as the middle segment when there is no folder |
| UploadRoute.BlobPathSegments | app/api/documents/upload/route.ts:42 | when no part contains `/`, the blob path splits at `/` into the owner, the folder (or `root`) and the file name |
| UploadRoute.Store | app/api/documents/upload/route.ts:39-95 | the blob is put first; if `put` throws, 500 with no row; if the insert fails, 500, no row, and a delete of the blob attempted when its URL is non-empty, whatever that delete does; otherwise the row with the put URL is appended and returned with 201 |
| UploadRoute.StoreKeepsRowsBacked | app/api/documents/upload/route.ts:46-80 | when `put` hands out a URL not held before, every row still points at a blob the store holds after the store step |
| UploadRoute.Post | app/api/documents/upload/route.ts:9-96 | 401 without a caller and 400 without a file or name, both before any external call and with neither store changed; otherwise the first call is the put at the path built from the caller, the normalised folder and the file name; 201 with the new row exactly when put and insert both succeed, with the row appended; a throwing put gives 500 with its message and no further call; a failed insert gives 500 with its message, no row, and a `del` of the blob as third call when its URL is non-empty, the blob then gone exactly when that delete succeeds; the other tables are untouched; rows stay backed by blobs |
| Text.Includes | components/document-list.tsx:72 | `includes` holds exactly when the needle occurs at some position of the haystack |
| Text.ToLowerIdempotent | components/document-list.tsx:72 | lower-casing a lower-cased string changes nothing |
| Text.Trim | components/upload-dialog.tsx:63 | `trim` never lengthens the string, and a non-empty result neither starts nor ends with white space |
| Text.TrimSpec | components/upload-dialog.tsx:63 | `trim` yields a stretch of the string with only white space around it, which neither starts nor ends with white space and is empty exactly when the whole string is white space |
| Text.Split | components/upload-dialog.tsx:57 | `split` at a character gives at least one piece, no piece contains the separator, and there is one piece exactly when the string has no separator |
| Text.Join | components/upload-dialog.tsx:57 | `join` starts with the first piece, followed by the separator when there are two or more pieces |
| Text.SplitJoin | components/upload-dialog.tsx:57 | splitting the join of one or more pieces free of the separator gives the pieces back |
| Text.JoinSplit | components/upload-dialog.tsx:57 | joining the pieces of a split at a character gives the string back |
| Text.JoinAllButLast | components/upload-dialog.tsx:57 | joining all split pieces but the last gives the part of the string before its last separator |
| UploadDialog.PrefilledName | components/upload-dialog.tsx:57 | the pre-filled name is the file name up to its last dot, and empty for a name without a dot |
| UploadDialog.FormFolderId | components/upload-dialog.tsx:79 | the folder field is never empty; it is `"null"` exactly when there is no current folder (or the folder id is `"null"`), and otherwise the current folder's id |
| UploadDialog.FolderFieldRoundTrip | components/upload-dialog.tsx:79 | the folder field the dialog sends is read back by the upload handler as the current folder, and as the root when there is none |
| UploadDialog.Dialog.constructor | components/upload-dialog.tsx:40-43 | no file, an empty name, not uploading, no error |
| UploadDialog.Dialog.HandleFileChange | components/upload-dialog.tsx:45-60 | an empty file list changes nothing; a file whose type is not allowed clears the file and the name and sets the "not supported" error; an allowed file is selected, its name pre-filled, and the error cleared; only an allowed file is ever held |
| UploadDialog.Dialog.EditName | components/upload-dialog.tsx:128 | the name field takes the typed value |
| UploadDialog.Dialog.HandleUpload | components/upload-dialog.tsx:62-105 | without a file or a non-blank name, or without a user, nothing is sent and the matching error is set; otherwise the request carries the user, the file, the trimmed name and the folder or `"null"`; success clears the file and name; a failed response shows its message or the default; a thrown error shows the network message; uploading ends false |
| UploadDialog.UploadFromDialog | components/upload-dialog.tsx:62-105 | the request the dialog sends, run through the upload handler: the handler never answers it with 401 or 400 (only 201 or 500); its first call puts the selected file under the caller and the folder the dialog was showing; the reply is a success exactly when put and insert succeed, and the dialog then drops its file exactly on success; a request the dialog refuses reaches no handler and changes no store |
| DocumentList.IconFor | components/document-list.tsx:66-70 | image icon exactly for types starting with `image/`, PDF icon exactly for `application/pdf`, generic icon otherwise; the image check wins |
| DocumentList.Filtered | components/document-list.tsx:72 | a document is shown exactly when its lower-cased name contains the lower-cased query |
| DocumentList.FilteredKeepsOrder | components/document-list.tsx:72 | the search keeps the documents' order |
| DocumentList.EmptyQueryKeepsAll | components/document-list.tsx:72 | an empty search shows every document |
| DocumentList.QueryCaseIgnored | components/document-list.tsx:72 | the search ignores the case of the query |
| DocumentList.Indent | components/document-list.tsx:131 | `k` levels of indentation are `2k` characters |
| DocumentList.ChildrenMember | components/document-list.tsx:125 | the children of a parent are exactly the folders whose `parentId` is that parent |
| DocumentList.OptionsOfPreOrder | components/document-list.tsx:126-132 | pre-order over a list of siblings: for every `j`-th sibling, the options are some prefix, then that sibling's option, then immediately the options of its subtree indented two spaces more, then exactly the options of the siblings after it |
| DocumentList.OptionsPreOrder | components/document-list.tsx:123-132 | the same pre-order for `folderOptions(parent)`: the `j`-th child of `parent` is followed immediately by its subtree's options, one level deeper, and then exactly by the options of the children after it |
| DocumentList.OptionsSound | components/document-list.tsx:123-132 | every option stands for a folder some levels below the parent, indented two spaces per level |
| DocumentList.OptionsComplete | components/document-list.tsx:123-132 | every folder fewer than `fuel` levels below the parent (all of them once the fuel exceeds the forest's depth, by `OptionsSaturate`) gets an option with the matching indentation |
| DocumentList.PickerListsRootedFolders | components/document-list.tsx:123-132 | `folderOptions(null)` has an option for a folder exactly when its `parentId` chain reaches `null`, for folders fewer than `fuel` levels down (all of them once the fuel exceeds the forest's depth, by `OptionsSaturate`), indented two spaces per level |
| DocumentList.BelowIndentedDeeper | components/document-list.tsx:131 | every option of a child's subtree is indented strictly further than the child |
| DocumentList.BelowIndentedFurther | components/document-list.tsx:131 | so no option of a child's subtree sits at the child's own indentation |
| DocumentList.TopLevelInTableOrder | components/document-list.tsx:123-125 | the options at no indentation are exactly the top-level folders, in table order |
| DocumentList.OptionsSaturate | components/document-list.tsx:123-132 | once the fuel exceeds the depth of the forest, more fuel changes nothing, so the bounded options are those of the unbounded recursion |

## Left out

- Random ids (`uid()`), `new Date()`, the database's generated ids and `created_at`/`uploaded_at` defaults: they are parameters. Uniqueness of ids is not assumed.
- Timestamps are abstract natural numbers compared by `>=`. The mock store keeps `uploadedAt` as an opaque string.
- `ORDER BY name` uses an abstract collation, which is required to be total and transitive. `ORDER BY` is modelled as a stable sort, although SQL does not promise stability; ties therefore keep table order only in the model.
- SQL errors, `put` throwing, and the insert and cleanup `del` failing are boolean or `Option` inputs. The `error` detail field of 500 replies, `::uuid` cast failures and the Neon client are not modelled.
- `toLowerCase` is modelled for ASCII letters only; Unicode case mapping is not modelled.
- `trim` removes the ECMAScript white-space and line-terminator characters listed in `Text.WhiteSpace`.
- Request bodies that cannot be parsed: `await req.json()` (app/api/auth/login/route.ts:6, app/api/auth/register/route.ts:6, app/api/folders/route.ts:34) and `await req.formData()` (app/api/documents/upload/route.ts:16) run outside the `try`, so a malformed body throws and the framework answers 500. The models of these handlers take the already-parsed fields and cannot produce that 500.
- LoginRoute.Post, UsersRoute.Get: the first row of a `SELECT … WHERE` without `ORDER BY` is taken to be the first matching row in table order; SQL does not promise which matching row comes first. With unique emails and ids (the register route keeps emails unique) there is only one matching row.
- MockDb.Store.UpdateFolder, MockDb.Store.UpdateDocument: records are values, so the tables after the update are modelled, but not that the source changes in place the very object that earlier `find` and `create` calls returned (callers holding it see the new name or folder).
- The race between the existence check and the insert in register, and all concurrent requests: each handler runs alone.
- DocumentList.Options, DocumentList.OptionsOf: `folderOptions` recursion is bounded by a `fuel` argument, because the source's recursion need not terminate: starting from `folderOptions(null)` it only visits folders reached by a chain of parent links from a root folder, so it diverges only when folders sharing an id make such a chain lead back to an id already on it; a parent cycle that no root reaches is never visited. OptionsSaturate shows the fuel is irrelevant once it exceeds the depth of an acyclic forest. The two functions carry no contract of their own; what they compute is stated by the lemmas about them (OptionsPreOrder, OptionsSound, OptionsComplete, PickerListsRootedFolders, TopLevelInTableOrder).
- DocumentList.PickerListsRootedFolders: states which folders get an option, not that each gets exactly one. Folder ids are not assumed unique, and two folders sharing an id each list that id's children, so a subtree can appear twice; "each folder appears exactly once" would need unique ids and an acyclic forest as extra assumptions and is not proved.
- UploadDialog.Dialog.HandleUpload: `isUploading` is only seen at the end (false). The intermediate `true` during the request, the `onUploadSuccess`/`onOpenChange` callbacks (reduced to the `succeeded` flag) and the logging are not modelled. A `res.json()` that throws is covered by the `Threw` outcome, because the source catches it in the same place.
- UploadRoute.Post: the blob bytes, `put` options and the blob store's URL choice are not modelled. That `put` returns a URL not held before is an assumption of the rows-backed property, not a fact proved about Vercel Blob.
- React rendering, the dialog's file input element, framer-motion, console logging, and the other pages and routes of the repository.

