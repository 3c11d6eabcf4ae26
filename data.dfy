/** The in-memory demo store of lib/data.ts: three tables kept in module-level arrays that
    the operations append to, update in place, and (for deletes) replace by filtered copies.
    Fresh ids and timestamps come in as parameters; `uid()` and the clock are not modelled. */
module MockDb {
  import opened Wrappers
  import Types
  import Seqs

  datatype User = User(id: string, email: string, password: string, role: Types.Role)

  datatype Folder = Folder(id: string, name: string, parentId: Option<string>, ownerId: string)

  datatype Document = Document(
    id: string,
    name: string,
    fileType: string,
    url: string,
    folderId: Option<string>,
    ownerId: string,
    uploadedAt: string)

  /** A `Partial<Pick<Document, "name" | "folderId">>`: `None` for a key the update leaves out. */
  datatype DocumentUpdate = DocumentUpdate(name: Option<string>, folderId: Option<Option<string>>)

  /** `Object.assign(doc, updates)`: the keys the update carries overwrite the document's. */
  function Merge(d: Document, u: DocumentUpdate): (r: Document)
    ensures r.id == d.id && r.fileType == d.fileType && r.url == d.url
    ensures r.ownerId == d.ownerId && r.uploadedAt == d.uploadedAt
  {
    var name := if u.name.Some? then u.name.value else d.name;
    var folderId := if u.folderId.Some? then u.folderId.value else d.folderId;
    d.(name := name, folderId := folderId)
  }

  /* ------------------------- the folder closure ------------------------- */

  /** The truthiness test `f.parentId && ...`: a folder whose `parentId` is `null` or `""`
      is never taken for a child. */
  predicate HasParentLink(f: Folder) {
    f.parentId.Some? && f.parentId.value != ""
  }

  /** The key `d.folderId ?? ""` a document is matched on: a root document has key `""`. */
  function FolderKey(d: Document): string {
    match d.folderId
    case None => ""
    case Some(id) => id
  }

  /** Every folder whose parent link points into `ids` has its own id in `ids`. */
  ghost predicate ClosedUnder(folders: seq<Folder>, ids: set<string>) {
    forall k :: 0 <= k < |folders| && HasParentLink(folders[k]) && folders[k].parentId.value in ids ==> folders[k].id in ids
  }

  ghost function Candidates(folders: seq<Folder>, id: string): set<string> {
    {id} + set k | 0 <= k < |folders| :: folders[k].id
  }

  /** The ids a delete of `id` removes: the least set that holds `id` and is closed under
      the parent links of `folders`. */
  ghost function Subtree(folders: seq<Folder>, id: string): set<string> {
    set x | x in Candidates(folders, id) && forall ids: set<string> :: id in ids && ClosedUnder(folders, ids) ==> x in ids
  }

  /** `Subtree` is included in every closed set that holds `id`. */
  lemma SubtreeLeast(folders: seq<Folder>, id: string, ids: set<string>)
    requires id in ids && ClosedUnder(folders, ids)
    ensures Subtree(folders, id) <= ids
  {
  }

  /** `Subtree` holds `id` and is itself closed. */
  lemma SubtreeClosed(folders: seq<Folder>, id: string)
    ensures id in Subtree(folders, id)
    ensures ClosedUnder(folders, Subtree(folders, id))
  {
    var s := Subtree(folders, id);
    forall k | 0 <= k < |folders| && HasParentLink(folders[k]) && folders[k].parentId.value in s
      ensures folders[k].id in s
    {
      assert folders[k].id in Candidates(folders, id);
      forall ids: set<string> | id in ids && ClosedUnder(folders, ids)
        ensures folders[k].id in ids
      {
        assert folders[k].parentId.value in ids;
      }
    }
  }

  /** `x` is `n` parent links below `id`: some folder with id `x` has a parent link to a
      folder id `n - 1` links below `id`. */
  ghost predicate Below(folders: seq<Folder>, id: string, x: string, n: nat)
    decreases n
  {
    if n == 0 then x == id
    else exists k :: 0 <= k < |folders| && folders[k].id == x && HasParentLink(folders[k])
                     && Below(folders, id, folders[k].parentId.value, n - 1)
  }

  lemma {:induction false} BelowInSubtree(folders: seq<Folder>, id: string, x: string, n: nat)
    requires Below(folders, id, x, n)
    ensures x in Subtree(folders, id)
    decreases n
  {
    SubtreeClosed(folders, id);
    if n > 0 {
      var k :| 0 <= k < |folders| && folders[k].id == x && HasParentLink(folders[k])
               && Below(folders, id, folders[k].parentId.value, n - 1);
      BelowInSubtree(folders, id, folders[k].parentId.value, n - 1);
    }
  }

  lemma SubtreeMemberIsBelow(folders: seq<Folder>, id: string, x: string)
    requires x in Subtree(folders, id)
    ensures exists n: nat :: Below(folders, id, x, n)
  {
    var reach := set y | y in Candidates(folders, id) && exists n: nat :: Below(folders, id, y, n);
    assert Below(folders, id, id, 0);
    assert id in reach;
    forall k | 0 <= k < |folders| && HasParentLink(folders[k]) && folders[k].parentId.value in reach
      ensures folders[k].id in reach
    {
      var n: nat :| Below(folders, id, folders[k].parentId.value, n);
      assert Below(folders, id, folders[k].id, n + 1);
      assert folders[k].id in Candidates(folders, id);
    }
    assert ClosedUnder(folders, reach);
    SubtreeLeast(folders, id, reach);
    assert x in reach;
  }

  /** The ids a delete removes are exactly `id` and the ids of the folders reachable from
      it by following parent links downwards. */
  lemma SubtreeIsReachable(folders: seq<Folder>, id: string, x: string)
    ensures x in Subtree(folders, id) <==> exists n: nat :: Below(folders, id, x, n)
  {
    if exists n: nat :: Below(folders, id, x, n) {
      var n: nat :| Below(folders, id, x, n);
      BelowInSubtree(folders, id, x, n);
    }
    if x in Subtree(folders, id) {
      SubtreeMemberIsBelow(folders, id, x);
    }
  }

  /** Every id in the subtree but `id` itself belongs to a folder whose parent link points
      inside the subtree: nothing is removed without a reason. */
  lemma SubtreeSupported(folders: seq<Folder>, id: string, x: string)
    requires x in Subtree(folders, id) && x != id
    ensures exists k :: 0 <= k < |folders| && folders[k].id == x && HasParentLink(folders[k])
                        && folders[k].parentId.value in Subtree(folders, id)
  {
    var s := Subtree(folders, id);
    if forall k :: 0 <= k < |folders| && folders[k].id == x && HasParentLink(folders[k]) ==> folders[k].parentId.value !in s {
      SubtreeClosed(folders, id);
      SubtreeLeast(folders, id, s - {x});
    }
  }

  /** Removing more of a finite set leaves fewer elements. */
  lemma DifferenceShrinks(u: set<string>, a: set<string>, b: set<string>)
    requires a < b <= u
    ensures |u - b| < |u - a|
  {
    assert u - a == (u - b) + (b - a);
    assert (u - b) * (b - a) == {};
  }

  /** The first `n` folders whose parent link points into `ids` have their own id in `ids`. */
  ghost predicate ClosedUpTo(folders: seq<Folder>, ids: set<string>, n: nat)
    requires n <= |folders|
  {
    forall k :: 0 <= k < n && HasParentLink(folders[k]) && folders[k].parentId.value in ids ==> folders[k].id in ids
  }

  /** The fixpoint loop of `folders.delete`: grow `{id}` by every folder whose parent is
      already in the set, until a full pass adds nothing. */
  method CollectSubtree(folders: seq<Folder>, id: string) returns (toDelete: set<string>)
    ensures toDelete == Subtree(folders, id)
  {
    ghost var candidates := Candidates(folders, id);
    toDelete := {id};
    var changed := true;
    while changed
      invariant id in toDelete && toDelete <= candidates
      invariant forall ids: set<string> :: id in ids && ClosedUnder(folders, ids) ==> toDelete <= ids
      invariant !changed ==> ClosedUnder(folders, toDelete)
      decreases |candidates - toDelete|, changed
    {
      ghost var before := toDelete;
      toDelete, changed := Pass(folders, id, toDelete);
      if changed {
        DifferenceShrinks(candidates, before, toDelete);
      }
    }
    SubtreeLeast(folders, id, toDelete);
  }

  /** One `folders.forEach` pass of the loop: it adds the id of every folder whose parent is
      in the set by the time the pass reaches it, never leaves the subtree, and reports a
      change exactly when it added something; a pass that adds nothing finds the set closed. */
  method Pass(folders: seq<Folder>, id: string, start: set<string>) returns (toDelete: set<string>, changed: bool)
    requires start <= Candidates(folders, id)
    requires forall ids: set<string> :: id in ids && ClosedUnder(folders, ids) ==> start <= ids
    ensures start <= toDelete <= Candidates(folders, id)
    ensures forall ids: set<string> :: id in ids && ClosedUnder(folders, ids) ==> toDelete <= ids
    ensures changed <==> toDelete != start
    ensures !changed ==> ClosedUnder(folders, toDelete)
  {
    toDelete, changed := start, false;
    var i := 0;
    while i < |folders|
      invariant 0 <= i <= |folders|
      invariant start <= toDelete <= Candidates(folders, id)
      invariant forall ids: set<string> :: id in ids && ClosedUnder(folders, ids) ==> toDelete <= ids
      invariant changed <==> toDelete != start
      invariant !changed ==> ClosedUpTo(folders, toDelete, i)
    {
      var f := folders[i];
      if HasParentLink(f) && f.parentId.value in toDelete && f.id !in toDelete {
        toDelete := toDelete + {f.id};
        changed := true;
      }
      i := i + 1;
    }
  }

  /** `folders.filter((f) => !toDelete.has(f.id))`. */
  function RemainingFolders(folders: seq<Folder>, doomed: set<string>): (r: seq<Folder>)
    ensures |r| == |folders| <==> forall k :: 0 <= k < |folders| ==> folders[k].id !in doomed
  {
    Seqs.Filter(folders, (f: Folder) => f.id !in doomed)
  }

  /** `documents.filter((d) => !toDelete.has(d.folderId ?? ""))`. */
  function RemainingDocuments(documents: seq<Document>, doomed: set<string>): (r: seq<Document>)
    ensures |r| == |documents| <==> forall k :: 0 <= k < |documents| ==> FolderKey(documents[k]) !in doomed
  {
    Seqs.Filter(documents, (d: Document) => FolderKey(d) !in doomed)
  }

  /** The folders a delete keeps are those of the table outside the removed set. */
  lemma RemainingFoldersMember(folders: seq<Folder>, doomed: set<string>)
    ensures forall f :: f in RemainingFolders(folders, doomed) <==> f in folders && f.id !in doomed
  {
    Seqs.FilterMember(folders, (f: Folder) => f.id !in doomed);
  }

  /** The documents a delete keeps are those of the table whose folder key is outside the
      removed set. */
  lemma RemainingDocumentsMember(documents: seq<Document>, doomed: set<string>)
    ensures forall d :: d in RemainingDocuments(documents, doomed) <==> d in documents && FolderKey(d) !in doomed
  {
    Seqs.FilterMember(documents, (d: Document) => FolderKey(d) !in doomed);
  }

  /** `documents.filter((d) => d.id !== id)`. */
  function OtherDocuments(documents: seq<Document>, id: string): (r: seq<Document>)
    ensures |r| == |documents| <==> forall k :: 0 <= k < |documents| ==> documents[k].id != id
  {
    Seqs.Filter(documents, (d: Document) => d.id != id)
  }

  /** A document delete keeps exactly the documents with another id. */
  lemma OtherDocumentsMember(documents: seq<Document>, id: string)
    ensures forall d :: d in OtherDocuments(documents, id) <==> d in documents && d.id != id
  {
    Seqs.FilterMember(documents, (d: Document) => d.id != id);
  }

  /** After a delete no remaining folder has a parent link into the removed subtree. */
  lemma DeleteLeavesNoDanglingParent(folders: seq<Folder>, id: string)
    ensures var s := Subtree(folders, id);
            forall f :: f in RemainingFolders(folders, s) ==> !(HasParentLink(f) && f.parentId.value in s)
  {
    var s := Subtree(folders, id);
    SubtreeClosed(folders, id);
    RemainingFoldersMember(folders, s);
    forall f | f in RemainingFolders(folders, s)
      ensures !(HasParentLink(f) && f.parentId.value in s)
    {
      var k :| 0 <= k < |folders| && folders[k] == f;
    }
  }

  /** A folder whose parent is the deleted id is removed even when no folder has that id. */
  lemma DeleteRemovesChildrenOfMissingId(folders: seq<Folder>, id: string, k: nat)
    requires k < |folders| && folders[k].parentId == Some(id) && id != ""
    ensures folders[k].id in Subtree(folders, id)
    ensures folders[k] !in RemainingFolders(folders, Subtree(folders, id))
  {
    SubtreeClosed(folders, id);
    RemainingFoldersMember(folders, Subtree(folders, id));
  }

  /** Root documents (key `""`) survive a delete exactly when the deleted id is not `""`,
      provided no folder has the empty id (which `uid()` never produces). */
  lemma DeleteKeepsRootDocuments(folders: seq<Folder>, documents: seq<Document>, id: string, d: Document)
    requires forall k :: 0 <= k < |folders| ==> folders[k].id != ""
    requires d in documents && d.folderId.None?
    ensures d in RemainingDocuments(documents, Subtree(folders, id)) <==> id != ""
  {
    SubtreeClosed(folders, id);
    RemainingDocumentsMember(documents, Subtree(folders, id));
    if id != "" {
      assert "" !in Candidates(folders, id);
    }
  }

  /* ------------------------------ the store ----------------------------- */

  class Store {
    var users: seq<User>
    var folders: seq<Folder>
    var documents: seq<Document>

    /** The module's initial state: two seeded demo accounts and no folders or documents. */
    constructor (adminId: string, memberId: string)
      ensures users == [User(adminId, "admin@example.com", "password", Types.Admin),
                        User(memberId, "member@example.com", "password", Types.Member)]
      ensures folders == [] && documents == []
    {
      users := [User(adminId, "admin@example.com", "password", Types.Admin),
                User(memberId, "member@example.com", "password", Types.Member)];
      folders := [];
      documents := [];
    }

    /* ------------------------------ users ------------------------------- */

    function FindUserByEmail(email: string): (r: Option<User>)
      reads this
      ensures r.None? <==> forall i :: 0 <= i < |users| ==> users[i].email != email
      ensures r.Some? ==> exists i :: (0 <= i < |users| && users[i] == r.value && r.value.email == email
                                       && forall j :: 0 <= j < i ==> users[j].email != email)
    {
      Seqs.Find(users, (u: User) => u.email == email)
    }

    function FindUserById(id: string): (r: Option<User>)
      reads this
      ensures r.None? <==> forall i :: 0 <= i < |users| ==> users[i].id != id
      ensures r.Some? ==> exists i :: (0 <= i < |users| && users[i] == r.value && r.value.id == id
                                       && forall j :: 0 <= j < i ==> users[j].id != id)
    {
      Seqs.Find(users, (u: User) => u.id == id)
    }

    /** Appends a user; there is no check that the email is free. */
    method CreateUser(id: string, email: string, password: string, role: Types.Role := Types.Member) returns (user: User)
      modifies this
      ensures user == User(id, email, password, role)
      ensures users == old(users) + [user]
      ensures folders == old(folders) && documents == old(documents)
    {
      user := User(id, email, password, role);
      users := users + [user];
    }

    /* ----------------------------- folders ------------------------------ */

    function FindFoldersByOwner(ownerId: string): (r: seq<Folder>)
      reads this
      ensures forall f :: f in r <==> f in folders && f.ownerId == ownerId
      ensures forall f :: f in r ==> multiset(r)[f] == multiset(folders)[f]
    {
      var owned := (f: Folder) => f.ownerId == ownerId;
      Seqs.FilterMember(folders, owned);
      Seqs.FilterMultiset(folders, owned);
      Seqs.Filter(folders, owned)
    }

    function FindFolderById(id: string): (r: Option<Folder>)
      reads this
      ensures r.None? <==> forall i :: 0 <= i < |folders| ==> folders[i].id != id
      ensures r.Some? ==> exists i :: (0 <= i < |folders| && folders[i] == r.value && r.value.id == id
                                       && forall j :: 0 <= j < i ==> folders[j].id != id)
    {
      Seqs.Find(folders, (f: Folder) => f.id == id)
    }

    /** Appends a folder; the parent is stored as given, without any check. */
    method CreateFolder(id: string, name: string, ownerId: string, parentId: Option<string> := None) returns (folder: Folder)
      modifies this
      ensures folder == Folder(id, name, parentId, ownerId)
      ensures folders == old(folders) + [folder]
      ensures users == old(users) && documents == old(documents)
    {
      folder := Folder(id, name, parentId, ownerId);
      folders := folders + [folder];
    }

    /** Renames the first folder with the given id, in place. */
    method UpdateFolder(id: string, newName: string) returns (folder: Option<Folder>)
      modifies this
      ensures users == old(users) && documents == old(documents)
      ensures |folders| == |old(folders)|
      ensures folder.None? <==> forall i :: 0 <= i < |old(folders)| ==> old(folders)[i].id != id
      ensures folder.None? ==> folders == old(folders)
      ensures folder.Some? ==> exists k :: (0 <= k < |folders|
                                            && (forall j :: 0 <= j < k ==> old(folders)[j].id != id)
                                            && old(folders)[k].id == id
                                            && folders == old(folders)[k := old(folders)[k].(name := newName)]
                                            && folder.value == folders[k])
    {
      var k := Seqs.FirstIndex(folders, (f: Folder) => f.id == id);
      if k.None? {
        folder := None;
      } else {
        folders := folders[k.value := folders[k.value].(name := newName)];
        folder := Some(folders[k.value]);
      }
    }

    /** Deletes the folder `id`, every folder below it, and every document in any of them;
        answers whether anything was removed. No ownership is checked. */
    method DeleteFolder(id: string) returns (removed: bool)
      modifies this
      ensures users == old(users)
      ensures folders == RemainingFolders(old(folders), Subtree(old(folders), id))
      ensures documents == RemainingDocuments(old(documents), Subtree(old(folders), id))
      ensures removed <==> ((exists k :: 0 <= k < |old(folders)| && old(folders)[k].id in Subtree(old(folders), id))
                            || (exists k :: 0 <= k < |old(documents)| && FolderKey(old(documents)[k]) in Subtree(old(folders), id)))
    {
      var toDelete := CollectSubtree(folders, id);
      var beforeFolders := |folders|;
      var beforeDocs := |documents|;
      folders := RemainingFolders(folders, toDelete);
      documents := RemainingDocuments(documents, toDelete);
      removed := |folders| < beforeFolders || |documents| < beforeDocs;
    }

    /* ---------------------------- documents ----------------------------- */

    /** The owner's documents in the folder; `None` matches root documents only. */
    function FindDocumentsByFolderAndOwner(folderId: Option<string>, ownerId: string): (r: seq<Document>)
      reads this
      ensures forall d :: d in r <==> d in documents && d.ownerId == ownerId && d.folderId == folderId
      ensures forall d :: d in r ==> multiset(r)[d] == multiset(documents)[d]
    {
      var inFolder := (d: Document) => d.ownerId == ownerId && d.folderId == folderId;
      Seqs.FilterMember(documents, inFolder);
      Seqs.FilterMultiset(documents, inFolder);
      Seqs.Filter(documents, inFolder)
    }

    function FindDocumentById(id: string): (r: Option<Document>)
      reads this
      ensures r.None? <==> forall i :: 0 <= i < |documents| ==> documents[i].id != id
      ensures r.Some? ==> exists i :: (0 <= i < |documents| && documents[i] == r.value && r.value.id == id
                                       && forall j :: 0 <= j < i ==> documents[j].id != id)
    {
      Seqs.Find(documents, (d: Document) => d.id == id)
    }

    method CreateDocument(id: string, name: string, fileType: string, url: string, folderId: Option<string>,
                          ownerId: string, uploadedAt: string) returns (doc: Document)
      modifies this
      ensures doc == Document(id, name, fileType, url, folderId, ownerId, uploadedAt)
      ensures documents == old(documents) + [doc]
      ensures users == old(users) && folders == old(folders)
    {
      doc := Document(id, name, fileType, url, folderId, ownerId, uploadedAt);
      documents := documents + [doc];
    }

    /** Merges the update into the first document with the given id, in place. */
    method UpdateDocument(id: string, updates: DocumentUpdate) returns (doc: Option<Document>)
      modifies this
      ensures users == old(users) && folders == old(folders)
      ensures |documents| == |old(documents)|
      ensures doc.None? <==> forall i :: 0 <= i < |old(documents)| ==> old(documents)[i].id != id
      ensures doc.None? ==> documents == old(documents)
      ensures doc.Some? ==> exists k :: (0 <= k < |documents|
                                         && (forall j :: 0 <= j < k ==> old(documents)[j].id != id)
                                         && old(documents)[k].id == id
                                         && documents == old(documents)[k := Merge(old(documents)[k], updates)]
                                         && doc.value == documents[k])
    {
      var k := Seqs.FirstIndex(documents, (d: Document) => d.id == id);
      if k.None? {
        doc := None;
      } else {
        documents := documents[k.value := Merge(documents[k.value], updates)];
        doc := Some(documents[k.value]);
      }
    }

    /** Removes every document with the given id; answers whether the table shrank. */
    method DeleteDocument(id: string) returns (removed: bool)
      modifies this
      ensures users == old(users) && folders == old(folders)
      ensures documents == OtherDocuments(old(documents), id)
      ensures removed <==> exists k :: 0 <= k < |old(documents)| && old(documents)[k].id == id
    {
      var before := |documents|;
      documents := OtherDocuments(documents, id);
      removed := |documents| < before;
    }
  }
}
