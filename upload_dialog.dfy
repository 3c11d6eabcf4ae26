/** The client-side upload dialog: it vets the chosen file's MIME type, pre-fills the display
    name from the file name, and posts the upload form to `POST /api/documents/upload`. */
module UploadDialog {
  import opened Wrappers
  import opened Http
  import Text
  import UploadRoute
  import Types
  import Database

  /** The MIME types the dialog accepts. */
  const AllowedMimeTypes: set<string> := {
    "application/pdf",
    "application/msword",
    "application/vnd.openxmlformats-officedocument.wordprocessingml.document",
    "application/vnd.ms-excel",
    "application/vnd.openxmlformats-officedocument.spreadsheetml.sheet",
    "application/vnd.ms-powerpoint",
    "application/vnd.openxmlformats-officedocument.presentationml.presentation",
    "text/plain",
    "text/csv",
    "image/png",
    "image/jpeg",
    "image/gif",
    "image/bmp",
    "image/webp",
    "image/svg+xml"
  }

  const UnsupportedTypePrefix := "File type not supported: "
  const UnsupportedTypeAdvice := ". Please upload a PDF, document, spreadsheet, presentation, text, CSV, or image file."

  const MissingInputMessage := "Please select a file and provide a name."
  const NotLoggedInMessage := "User not authenticated. Please log in."
  const UploadFailedMessage := "Failed to upload file."
  const NetworkErrorPrefix := "Network error or server issue: "

  function UnsupportedTypeMessage(fileType: string): string {
    UnsupportedTypePrefix + fileType + UnsupportedTypeAdvice
  }

  /** `name.split(".").slice(0, -1).join(".")`: the file name up to its last dot, and the
      empty string for a name without a dot. */
  function PrefilledName(name: string): (r: string)
    ensures '.' !in name ==> r == ""
    ensures '.' in name ==> r == name[..Text.LastIndexOf(name, '.').value]
  {
    if '.' in name then Text.JoinAllButLast(name, '.'); Text.JoinAllButLastPiece(name, '.')
    else Text.JoinAllButLastPiece(name, '.')
  }

  /** `currentFolderId || "null"`: the form always carries a folder field. */
  function FormFolderId(currentFolderId: Option<string>): (r: string)
    ensures r != ""
    ensures r == "null" <==> !Truthy(currentFolderId) || currentFolderId == Some("null")
    ensures r != "null" ==> currentFolderId == Some(r)
  {
    if Truthy(currentFolderId) then currentFolderId.value else "null"
  }

  /** The dialog and the handler agree on the folder: the field the dialog sends is read back
      by the handler as the current folder, and as the root when there is none. */
  lemma FolderFieldRoundTrip(currentFolderId: Option<string>)
    ensures UploadRoute.NormalizeFolderId(Some(FormFolderId(currentFolderId))) ==
              if Truthy(currentFolderId) && currentFolderId != Some("null") then currentFolderId else None
  {
  }

  /** The request the dialog sends: the `X-User-Id` header and the three form fields. */
  datatype UploadRequest = UploadRequest(userId: string, file: File, fileName: string, folderId: string)

  /** What `fetch` yields: a response (`res.ok` and the `message` of its JSON body) or a
      thrown error with its message. */
  datatype FetchOutcome = Responded(ok: bool, message: Option<string>) | Threw(reason: string)

  class Dialog {
    var selectedFile: Option<File>
    var fileName: string
    var isUploading: bool
    var error: Option<string>

    /** Only a file of an allowed type is ever held. */
    ghost predicate Valid()
      reads this
    {
      selectedFile.Some? ==> selectedFile.value.fileType in AllowedMimeTypes
    }

    constructor ()
      ensures Valid()
      ensures selectedFile == None && fileName == "" && !isUploading && error == None
    {
      selectedFile := None;
      fileName := "";
      isUploading := false;
      error := None;
    }

    /** The file input changed; `files` is its file list. */
    method HandleFileChange(files: seq<File>)
      requires Valid()
      modifies this
      ensures Valid()
      ensures isUploading == old(isUploading)
      ensures files == [] ==>
                selectedFile == old(selectedFile) && fileName == old(fileName) && error == old(error)
      ensures files != [] && files[0].fileType !in AllowedMimeTypes ==>
                error == Some(UnsupportedTypeMessage(files[0].fileType)) && selectedFile == None && fileName == ""
      ensures files != [] && files[0].fileType in AllowedMimeTypes ==>
                selectedFile == Some(files[0]) && fileName == PrefilledName(files[0].name) && error == None
    {
      if files != [] {
        var file := files[0];
        if file.fileType !in AllowedMimeTypes {
          error := Some(UnsupportedTypeMessage(file.fileType));
          selectedFile := None;
          fileName := "";
        } else {
          selectedFile := Some(file);
          fileName := PrefilledName(file.name);
          error := None;
        }
      }
    }

    /** The name input changed. */
    method EditName(value: string)
      requires Valid()
      modifies this`fileName
      ensures Valid()
      ensures fileName == value
    {
      fileName := value;
    }

    /** The upload button: `request` is what is sent (if anything) and `succeeded` says
        whether the success callbacks ran. */
    method HandleUpload(currentFolderId: Option<string>, userId: Option<string>, outcome: FetchOutcome)
      returns (request: Option<UploadRequest>, succeeded: bool)
      requires Valid()
      modifies this
      ensures Valid()
      ensures old(selectedFile).None? || Text.Trim(old(fileName)) == "" ==>
                request == None && !succeeded && error == Some(MissingInputMessage) &&
                selectedFile == old(selectedFile) && fileName == old(fileName) && isUploading == old(isUploading)
      ensures old(selectedFile).Some? && Text.Trim(old(fileName)) != "" && !Truthy(userId) ==>
                request == None && !succeeded && error == Some(NotLoggedInMessage) &&
                selectedFile == old(selectedFile) && fileName == old(fileName) && isUploading == old(isUploading)
      ensures request.Some? <==> old(selectedFile).Some? && Text.Trim(old(fileName)) != "" && Truthy(userId)
      ensures request.Some? ==>
                request.value == UploadRequest(userId.value, old(selectedFile).value, Text.Trim(old(fileName)),
                                               FormFolderId(currentFolderId)) &&
                !isUploading &&
                (succeeded <==> outcome.Responded? && outcome.ok)
      ensures request.Some? && outcome.Responded? && outcome.ok ==>
                selectedFile == None && fileName == "" && error == None
      ensures request.Some? && outcome.Responded? && !outcome.ok ==>
                selectedFile == old(selectedFile) && fileName == old(fileName) &&
                error == Some(if Truthy(outcome.message) then outcome.message.value else UploadFailedMessage)
      ensures request.Some? && outcome.Threw? ==>
                selectedFile == old(selectedFile) && fileName == old(fileName) &&
                error == Some(NetworkErrorPrefix + outcome.reason)
    {
      succeeded := false;
      if selectedFile.None? || Text.Trim(fileName) == "" {
        error := Some(MissingInputMessage);
        return None, false;
      }
      if !Truthy(userId) {
        error := Some(NotLoggedInMessage);
        return None, false;
      }
      isUploading := true;
      error := None;
      request := Some(UploadRequest(userId.value, selectedFile.value, Text.Trim(fileName), FormFolderId(currentFolderId)));
      if outcome.Threw? {
        error := Some(NetworkErrorPrefix + outcome.reason);
      } else if outcome.ok {
        succeeded := true;
        selectedFile := None;
        fileName := "";
      } else {
        error := Some(if Truthy(outcome.message) then outcome.message.value else UploadFailedMessage);
      }
      isUploading := false;
    }
  }

  /** The dialog and the handler together: when the dialog sends its request, the handler
      runs on exactly the form it carries and its reply is what the dialog reads back. The
      handler never refuses a request the dialog sends (no 401, no 400), it puts the blob under
      the caller and the folder the dialog was showing, and the dialog clears its file exactly
      when the upload was stored. When the dialog refuses to send, nothing reaches the handler. */
  method UploadFromDialog(dialog: Dialog, db: Database.Tables, blobs: Database.BlobStore,
                          currentFolderId: Option<string>, userId: Option<string>,
                          putUrl: Option<string>, insertOk: bool, deleteOk: bool, newId: string, now: nat)
    returns (request: Option<UploadRequest>, reply: Option<Reply<Types.Document>>, effects: seq<UploadRoute.Effect>)
    requires dialog.Valid()
    modifies dialog, db, blobs
    ensures dialog.Valid()
    ensures request.Some? <==> reply.Some?
    ensures request.None? ==> effects == [] && db.documents == old(db.documents) && blobs.urls == old(blobs.urls)
    ensures request.Some? ==>
              reply.value.status == StatusCreated || reply.value.status == StatusServerError
    ensures request.Some? ==>
              old(dialog.selectedFile).Some? && request.value.file == old(dialog.selectedFile).value &&
              effects != [] &&
              effects[0] == UploadRoute.PutBlob(UploadRoute.BlobPath(request.value.userId,
                              if Truthy(currentFolderId) && currentFolderId != Some("null") then currentFolderId else None,
                              request.value.file.name))
    ensures request.Some? ==>
              (reply.value.Success? <==> putUrl.Some? && insertOk) &&
              (dialog.selectedFile.None? <==> reply.value.Success?)
  {
    if dialog.selectedFile.Some? && Text.Trim(dialog.fileName) != "" && Truthy(userId) {
      var form := Some(FormFolderId(currentFolderId));
      FolderFieldRoundTrip(currentFolderId);
      var r, e := UploadRoute.Post(db, blobs, userId, dialog.selectedFile, Some(Text.Trim(dialog.fileName)),
                                   form, putUrl, insertOk, deleteOk, newId, now);
      var message := if r.Failure? then Some(r.message) else None;
      var succeeded;
      request, succeeded := dialog.HandleUpload(currentFolderId, userId, Responded(r.Success?, message));
      reply, effects := Some(r), e;
    } else {
      var succeeded;
      request, succeeded := dialog.HandleUpload(currentFolderId, userId, Threw(""));
      reply, effects := None, [];
    }
  }
}
