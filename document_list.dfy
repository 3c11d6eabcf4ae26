/** The pure helpers of the document list: the MIME-to-icon classifier, the search filter and
    the indented folder options of the "move to folder" picker. */
module DocumentList {
  import opened Wrappers
  import opened Types
  import Seqs
  import Text

  // ---------------------------------------------------------------- icons

  datatype Icon = ImageIcon | PdfIcon | GenericIcon

  /** The image check comes first, then the exact PDF type; everything else is generic. */
  function IconFor(fileType: string): (r: Icon)
    ensures r == ImageIcon <==> Text.StartsWith(fileType, "image/")
    ensures r == PdfIcon <==> fileType == "application/pdf"
    ensures r == GenericIcon <==> !Text.StartsWith(fileType, "image/") && fileType != "application/pdf"
  {
    if Text.StartsWith(fileType, "image/") then
      assert fileType[0] == 'i';
      ImageIcon
    else if fileType == "application/pdf" then PdfIcon
    else GenericIcon
  }

  // ---------------------------------------------------------------- search

  /** `d.name.toLowerCase().includes(query.toLowerCase())`. */
  predicate Matches(d: Document, query: string) {
    Text.Includes(Text.ToLower(d.name), Text.ToLower(query))
  }

  /** The documents the list shows for a search `query`. */
  function Filtered(documents: seq<Document>, query: string): (r: seq<Document>)
    ensures |r| <= |documents|
    ensures forall d :: d in r <==> d in documents && Matches(d, query)
  {
    Seqs.FilterMember(documents, (d: Document) => Matches(d, query));
    Seqs.Filter(documents, (d: Document) => Matches(d, query))
  }

  /** The search keeps the documents' order: filtering two stretches of the list separately
      and concatenating gives the filtered list. */
  lemma FilteredKeepsOrder(a: seq<Document>, b: seq<Document>, query: string)
    ensures Filtered(a + b, query) == Filtered(a, query) + Filtered(b, query)
  {
    Seqs.FilterAppend(a, b, (d: Document) => Matches(d, query));
  }

  /** An empty search shows every document. */
  lemma EmptyQueryKeepsAll(documents: seq<Document>)
    ensures Filtered(documents, "") == documents
  {
    forall i | 0 <= i < |documents| ensures Matches(documents[i], "") {
      assert Text.OccursAt(Text.ToLower(documents[i].name), Text.ToLower(""), 0);
    }
    Seqs.FilterAll(documents, (d: Document) => Matches(d, ""));
  }

  /** The search ignores the case of the query. */
  lemma QueryCaseIgnored(documents: seq<Document>, query: string)
    ensures Filtered(documents, query) == Filtered(documents, Text.ToLower(query))
  {
    Text.ToLowerIdempotent(query);
    Seqs.FilterCongruent(documents, (d: Document) => Matches(d, query),
                         (d: Document) => Matches(d, Text.ToLower(query)));
  }

  // ---------------------------------------------------------------- folder options

  /** One `<option>` of the folder picker: its value, the indentation before the name, and
      the name. */
  datatype FolderOption = FolderOption(value: string, indent: string, name: string)

  function OptionFor(f: Folder, indent: string): FolderOption {
    FolderOption(f.id, indent, f.name)
  }

  /** `k` levels of indentation, two spaces each: `indent + "  "` applied `k` times to "". */
  function Indent(k: nat): (r: string)
    ensures |r| == 2 * k
  {
    if k == 0 then "" else Indent(k - 1) + "  "
  }

  /** `folders.filter((f) => f.parentId === parent)`. */
  function Children(folders: seq<Folder>, parent: Option<string>): seq<Folder> {
    Seqs.Filter(folders, (f: Folder) => f.parentId == parent)
  }

  /** The children of `parent` are the folders of the table whose `parentId` is `parent`. */
  lemma ChildrenMember(folders: seq<Folder>, parent: Option<string>)
    ensures forall c :: c in Children(folders, parent) <==> c in folders && c.parentId == parent
  {
    Seqs.FilterMember(folders, (f: Folder) => f.parentId == parent);
  }

  /** `folderOptions(parent, indent)`, cut off after `fuel` levels: every child of `parent`,
      in table order, each followed by the options of its own children, indented two spaces
      more. */
  function Options(folders: seq<Folder>, parent: Option<string>, indent: string, fuel: nat): seq<FolderOption>
    decreases fuel, 1, 0
  {
    if fuel == 0 then [] else OptionsOf(folders, Children(folders, parent), indent, fuel)
  }

  /** The `flatMap` over the children. */
  function OptionsOf(folders: seq<Folder>, children: seq<Folder>, indent: string, fuel: nat): seq<FolderOption>
    requires fuel >= 1
    decreases fuel, 0, |children|
  {
    if children == [] then []
    else
      [OptionFor(children[0], indent)]
      + Options(folders, Some(children[0].id), indent + "  ", fuel - 1)
      + OptionsOf(folders, children[1..], indent, fuel)
  }

  /** Folder `f` sits `k` levels below `parent`: `f` is a child of `parent` (k = 0), or it
      sits `k - 1` levels below some child of `parent`. */
  ghost predicate Listed(folders: seq<Folder>, parent: Option<string>, f: Folder, k: nat)
    decreases k
  {
    f in folders &&
    if k == 0 then f.parentId == parent
    else exists c :: c in folders && c.parentId == parent && Listed(folders, Some(c.id), f, k - 1)
  }

  /** What sits `k` levels below a child of `parent` sits `k + 1` levels below `parent`. */
  lemma ListedUnder(folders: seq<Folder>, parent: Option<string>, c: Folder, f: Folder, k: nat)
    requires c in folders && c.parentId == parent && Listed(folders, Some(c.id), f, k)
    ensures Listed(folders, parent, f, k + 1)
  {
  }

  /** Every option of a picker call at depth `depth` stands for a folder `f` that sits `k`
      levels below `parent`, indented by `depth + k` levels. */
  lemma {:induction false} OptionsSound(folders: seq<Folder>, parent: Option<string>, depth: nat, fuel: nat,
                                        o: FolderOption)
    returns (f: Folder, k: nat, d: nat)
    requires o in Options(folders, parent, Indent(depth), fuel)
    ensures k < fuel && Listed(folders, parent, f, k) && d == depth + k && o == OptionFor(f, Indent(d))
    decreases fuel, 1, 0
  {
    ChildrenMember(folders, parent);
    f, k, d := OptionsOfSound(folders, Children(folders, parent), parent, depth, fuel, o);
  }

  lemma {:induction false} OptionsOfSound(folders: seq<Folder>, children: seq<Folder>, parent: Option<string>,
                                          depth: nat, fuel: nat, o: FolderOption)
    returns (f: Folder, k: nat, d: nat)
    requires fuel >= 1
    requires forall c :: c in children ==> c in folders && c.parentId == parent
    requires o in OptionsOf(folders, children, Indent(depth), fuel)
    ensures k < fuel
    ensures Listed(folders, parent, f, k)
    ensures d == depth + k && o == OptionFor(f, Indent(d))
    decreases fuel, 0, |children|
  {
    var c := children[0];
    var part := OptionsOfPart(folders, children, depth, fuel, o);
    if part == 0 {
      f, k, d := HeadSound(folders, parent, c, depth, fuel, o);
    } else if part == 1 {
      f, k, d := BelowSound(folders, parent, c, depth, fuel, o);
    } else {
      f, k, d := OptionsOfSound(folders, children[1..], parent, depth, fuel, o);
    }
  }

  /** The options of `children` at depth `depth`: the first child's option, the options
      one level below it, then the options of the other children. */
  lemma OptionsOfUnfold(folders: seq<Folder>, children: seq<Folder>, depth: nat, fuel: nat)
    requires fuel >= 1 && children != []
    ensures OptionsOf(folders, children, Indent(depth), fuel)
              == [OptionFor(children[0], Indent(depth))]
                 + Options(folders, Some(children[0].id), Indent(depth + 1), fuel - 1)
                 + OptionsOf(folders, children[1..], Indent(depth), fuel)
  {
    assert Indent(depth) + "  " == Indent(depth + 1);
  }

  /** Pre-order among siblings: the options of `children` contain, for the `j`-th child, its
      own option immediately followed by the options of its subtree, and then exactly the
      options of the later children. */
  lemma {:induction false} OptionsOfPreOrder(folders: seq<Folder>, children: seq<Folder>, depth: nat, fuel: nat, j: nat)
    returns (pre: seq<FolderOption>, post: seq<FolderOption>)
    requires fuel >= 1 && j < |children|
    ensures OptionsOf(folders, children, Indent(depth), fuel)
              == pre + [OptionFor(children[j], Indent(depth))]
                 + Options(folders, Some(children[j].id), Indent(depth + 1), fuel - 1) + post
    ensures post == OptionsOf(folders, children[j + 1..], Indent(depth), fuel)
    decreases j
  {
    OptionsOfUnfold(folders, children, depth, fuel);
    if j == 0 {
      pre, post := [], OptionsOf(folders, children[1..], Indent(depth), fuel);
    } else {
      var first := [OptionFor(children[0], Indent(depth))]
                   + Options(folders, Some(children[0].id), Indent(depth + 1), fuel - 1);
      var pre', post' := OptionsOfPreOrder(folders, children[1..], depth, fuel, j - 1);
      assert children[1..][j - 1] == children[j] && children[1..][j..] == children[j + 1..];
      var own := [OptionFor(children[j], Indent(depth))];
      var sub := Options(folders, Some(children[j].id), Indent(depth + 1), fuel - 1);
      assert OptionsOf(folders, children, Indent(depth), fuel) == first + (pre' + own + sub + post');
      ConcatRegroup(first, pre', own, sub, post');
      pre, post := first + pre', post';
    }
  }

  lemma ConcatRegroup<T>(a: seq<T>, b: seq<T>, c: seq<T>, d: seq<T>, e: seq<T>)
    ensures a + (b + c + d + e) == (a + b) + c + d + e
  {
  }

  /** Pre-order for a picker call: the option of the `j`-th child of `parent` is followed
      immediately by the options of that child's subtree, indented one level more, and then
      by the options of the children after it. */
  lemma OptionsPreOrder(folders: seq<Folder>, parent: Option<string>, depth: nat, fuel: nat, j: nat)
    returns (pre: seq<FolderOption>, post: seq<FolderOption>)
    requires fuel >= 1 && j < |Children(folders, parent)|
    ensures var c := Children(folders, parent)[j];
            Options(folders, parent, Indent(depth), fuel)
              == pre + [OptionFor(c, Indent(depth))] + Options(folders, Some(c.id), Indent(depth + 1), fuel - 1) + post
    ensures post == OptionsOf(folders, Children(folders, parent)[j + 1..], Indent(depth), fuel)
  {
    pre, post := OptionsOfPreOrder(folders, Children(folders, parent), depth, fuel, j);
  }

  /** Where an option of `children` comes from: the first child (part 0), the folders below
      it (part 1) or the other children (part 2). */
  lemma OptionsOfPart(folders: seq<Folder>, children: seq<Folder>, depth: nat, fuel: nat, o: FolderOption)
    returns (part: nat)
    requires fuel >= 1 && o in OptionsOf(folders, children, Indent(depth), fuel)
    ensures children != [] && part < 3
    ensures part == 0 ==> o == OptionFor(children[0], Indent(depth))
    ensures part == 1 ==> o in Options(folders, Some(children[0].id), Indent(depth + 1), fuel - 1)
    ensures part == 2 ==> o in OptionsOf(folders, children[1..], Indent(depth), fuel)
  {
    OptionsOfUnfold(folders, children, depth, fuel);
    part := Seqs.PartOf(o, [OptionFor(children[0], Indent(depth))],
                        Options(folders, Some(children[0].id), Indent(depth + 1), fuel - 1),
                        OptionsOf(folders, children[1..], Indent(depth), fuel));
  }

  /** The option of a child of `parent` stands for that child, at depth 0 below `parent`. */
  lemma HeadSound(folders: seq<Folder>, parent: Option<string>, c: Folder, depth: nat, fuel: nat, o: FolderOption)
    returns (f: Folder, k: nat, d: nat)
    requires fuel >= 1 && c in folders && c.parentId == parent && o == OptionFor(c, Indent(depth))
    ensures k < fuel && Listed(folders, parent, f, k) && d == depth + k && o == OptionFor(f, Indent(d))
  {
    f, k, d := c, 0, depth;
  }

  /** An option below a child of `parent` stands for a folder one level further down. */
  lemma {:induction false} BelowSound(folders: seq<Folder>, parent: Option<string>, c: Folder,
                                      depth: nat, fuel: nat, o: FolderOption)
    returns (f: Folder, k: nat, d: nat)
    requires fuel >= 1 && c in folders && c.parentId == parent
    requires o in Options(folders, Some(c.id), Indent(depth + 1), fuel - 1)
    ensures k < fuel && Listed(folders, parent, f, k) && d == depth + k && o == OptionFor(f, Indent(d))
    decreases fuel, 0, 0
  {
    var k';
    f, k', d := OptionsSound(folders, Some(c.id), depth + 1, fuel - 1, o);
    ListedUnder(folders, parent, c, f, k');
    k := k' + 1;
  }

  /** A child's own option is among its siblings' options. */
  lemma {:induction false} ChildOptionListed(folders: seq<Folder>, children: seq<Folder>, depth: nat,
                                             fuel: nat, c: Folder)
    requires fuel >= 1 && c in children
    ensures OptionFor(c, Indent(depth)) in OptionsOf(folders, children, Indent(depth), fuel)
    decreases |children|
  {
    if children[0] != c {
      ChildOptionListed(folders, children[1..], depth, fuel, c);
    }
  }

  /** The options below a child are among its siblings' options. */
  lemma {:induction false} BelowOptionListed(folders: seq<Folder>, children: seq<Folder>, depth: nat,
                                             fuel: nat, c: Folder, o: FolderOption)
    requires fuel >= 1 && c in children
    requires o in Options(folders, Some(c.id), Indent(depth + 1), fuel - 1)
    ensures o in OptionsOf(folders, children, Indent(depth), fuel)
    decreases |children|
  {
    if children[0] != c {
      BelowOptionListed(folders, children[1..], depth, fuel, c, o);
    }
  }

  /** Every folder that sits `k < fuel` levels below `parent` gets an option, indented by
      `depth + k` levels. */
  lemma {:induction false} OptionsComplete(folders: seq<Folder>, parent: Option<string>, depth: nat, fuel: nat,
                                           f: Folder, k: nat)
    requires Listed(folders, parent, f, k) && k < fuel
    ensures OptionFor(f, Indent(depth + k)) in Options(folders, parent, Indent(depth), fuel)
    decreases k, 1
  {
    var children := Children(folders, parent);
    assert Options(folders, parent, Indent(depth), fuel) == OptionsOf(folders, children, Indent(depth), fuel);
    if k == 0 {
      ChildrenMember(folders, parent);
      ChildOptionListed(folders, children, depth, fuel, f);
    } else {
      var c :| c in folders && c.parentId == parent && Listed(folders, Some(c.id), f, k - 1);
      ChildrenMember(folders, parent);
      BelowComplete(folders, children, c, depth, fuel, f, k);
    }
  }

  /** A folder `k - 1` levels below child `c` is listed among the options of `c`'s siblings. */
  lemma {:induction false} BelowComplete(folders: seq<Folder>, children: seq<Folder>, c: Folder, depth: nat,
                                         fuel: nat, f: Folder, k: nat)
    requires 1 <= k < fuel && c in children && Listed(folders, Some(c.id), f, k - 1)
    ensures OptionFor(f, Indent(depth + k)) in OptionsOf(folders, children, Indent(depth), fuel)
    decreases k, 0
  {
    OptionsComplete(folders, Some(c.id), depth + 1, fuel - 1, f, k - 1);
    assert depth + 1 + (k - 1) == depth + k;
    BelowOptionListed(folders, children, depth, fuel, c, OptionFor(f, Indent(depth + k)));
  }

  /** The picker: a folder has an option exactly when its `parentId` chain reaches `null`
      within the fuel, and its option is indented two spaces per level below the top. */
  lemma PickerListsRootedFolders(folders: seq<Folder>, fuel: nat, o: FolderOption)
    ensures o in Options(folders, None, "", fuel) <==>
              exists f, k: nat :: k < fuel && Listed(folders, None, f, k) && o == OptionFor(f, Indent(k))
  {
    assert Indent(0) == "";
    if o in Options(folders, None, "", fuel) {
      var f, k, d := OptionsSound(folders, None, 0, fuel, o);
      assert k < fuel && Listed(folders, None, f, k) && o == OptionFor(f, Indent(k));
    }
    if exists f, k: nat :: k < fuel && Listed(folders, None, f, k) && o == OptionFor(f, Indent(k)) {
      var f, k: nat :| k < fuel && Listed(folders, None, f, k) && o == OptionFor(f, Indent(k));
      OptionsComplete(folders, None, 0, fuel, f, k);
    }
  }

  /** The options of `children` at their own indentation, in order. */
  function TopOptions(children: seq<Folder>, indent: string): seq<FolderOption> {
    if children == [] then [] else [OptionFor(children[0], indent)] + TopOptions(children[1..], indent)
  }

  /** Selects the options indented by exactly `indent`. */
  function AtIndent(indent: string): FolderOption -> bool {
    (o: FolderOption) => o.indent == indent
  }

  /** Every option of a picker call at depth `depth + 1` is indented further than depth
      `depth`. */
  lemma BelowIndentedDeeper(folders: seq<Folder>, parent: Option<string>, depth: nat, fuel: nat)
    ensures forall o :: o in Options(folders, parent, Indent(depth + 1), fuel) ==> |o.indent| > |Indent(depth)|
  {
    forall o | o in Options(folders, parent, Indent(depth + 1), fuel) ensures |o.indent| > |Indent(depth)| {
      var f, k, d := OptionsSound(folders, parent, depth + 1, fuel, o);
    }
  }

  /** So none of the options below a child sits at the child's own indentation. */
  lemma BelowIndentedFurther(folders: seq<Folder>, parent: Option<string>, depth: nat, fuel: nat)
    ensures Seqs.Filter(Options(folders, parent, Indent(depth + 1), fuel), AtIndent(Indent(depth)))
              == []
  {
    var below := Options(folders, parent, Indent(depth + 1), fuel);
    BelowIndentedDeeper(folders, parent, depth, fuel);
    forall i | 0 <= i < |below| ensures below[i].indent != Indent(depth) {
      assert below[i] in below;
    }
    Seqs.FilterNone(below, AtIndent(Indent(depth)));
  }

  /** A folder's own option is at its own indentation. */
  lemma HeadAtIndent(c: Folder, indent: string)
    ensures Seqs.Filter([OptionFor(c, indent)], AtIndent(indent)) == [OptionFor(c, indent)]
  {
    assert [OptionFor(c, indent)][1..] == [];
  }

  /** When `p` keeps all of `head` and none of `below`, filtering `head + below + rest` keeps
      `head` followed by what it keeps of `rest`. */
  lemma FilterKeepsHeadOnly(head: seq<FolderOption>, below: seq<FolderOption>, rest: seq<FolderOption>,
                            p: FolderOption -> bool)
    requires Seqs.Filter(head, p) == head && Seqs.Filter(below, p) == []
    ensures Seqs.Filter(head + below + rest, p) == head + Seqs.Filter(rest, p)
  {
    Seqs.FilterAppend(head, below, p);
    assert Seqs.Filter(head + below, p) == head + [] == head;
    Seqs.FilterAppend(head + below, rest, p);
  }

  /** Among the options of `children` at depth `depth`, those at that indentation are
      exactly the children's, in order; everything else is indented further. */
  lemma {:induction false} OptionsOfTopLevel(folders: seq<Folder>, children: seq<Folder>, depth: nat, fuel: nat)
    requires fuel >= 1
    ensures Seqs.Filter(OptionsOf(folders, children, Indent(depth), fuel), AtIndent(Indent(depth)))
              == TopOptions(children, Indent(depth))
    decreases |children|
  {
    if children != [] {
      OptionsOfTopLevel(folders, children[1..], depth, fuel);
      TopLevelStep(folders, children, depth, fuel);
    }
  }

  /** The step of `OptionsOfTopLevel`: the first child's option is kept, the options below it
      are dropped. */
  lemma TopLevelStep(folders: seq<Folder>, children: seq<Folder>, depth: nat, fuel: nat)
    requires fuel >= 1 && children != []
    requires Seqs.Filter(OptionsOf(folders, children[1..], Indent(depth), fuel), AtIndent(Indent(depth)))
               == TopOptions(children[1..], Indent(depth))
    ensures Seqs.Filter(OptionsOf(folders, children, Indent(depth), fuel), AtIndent(Indent(depth)))
              == TopOptions(children, Indent(depth))
  {
    var c, indent := children[0], Indent(depth);
    var head := [OptionFor(c, indent)];
    var below := Options(folders, Some(c.id), Indent(depth + 1), fuel - 1);
    var rest := OptionsOf(folders, children[1..], indent, fuel);
    OptionsOfUnfold(folders, children, depth, fuel);
    assert OptionsOf(folders, children, indent, fuel) == head + below + rest;
    HeadAtIndent(c, indent);
    BelowIndentedFurther(folders, Some(c.id), depth, fuel - 1);
    FilterKeepsHeadOnly(head, below, rest, AtIndent(indent));
    assert TopOptions(children, indent) == head + TopOptions(children[1..], indent);
  }

  /** `folderOptions(null)` lists the top-level folders at no indentation, in table order;
      all other options are indented. */
  lemma TopLevelInTableOrder(folders: seq<Folder>, fuel: nat)
    requires fuel >= 1
    ensures Seqs.Filter(Options(folders, None, "", fuel), AtIndent(""))
              == TopOptions(Children(folders, None), "")
  {
    assert Indent(0) == "";
    OptionsOfTopLevel(folders, Children(folders, None), 0, fuel);
  }

  /** No folder sits `fuel` or more levels below `parent`. */
  ghost predicate NoneBelow(folders: seq<Folder>, parent: Option<string>, fuel: nat) {
    forall f, k: nat :: k >= fuel ==> !Listed(folders, parent, f, k)
  }

  /** Nothing sits `fuel - 1` or more levels below a child of `parent` when nothing sits
      `fuel` or more levels below `parent`. */
  lemma NothingBelowChild(folders: seq<Folder>, parent: Option<string>, c: Folder, fuel: nat)
    requires fuel >= 1 && c in folders && c.parentId == parent && NoneBelow(folders, parent, fuel)
    ensures NoneBelow(folders, Some(c.id), fuel - 1)
  {
    forall f, k: nat | k >= fuel - 1 && Listed(folders, Some(c.id), f, k) ensures false {
      ListedUnder(folders, parent, c, f, k);
    }
  }

  /** Fuel beyond the depth of the forest changes nothing: when no folder sits `fuel` or more
      levels below `parent`, any larger fuel yields the same options, which are therefore
      the options of the unbounded recursion. */
  lemma {:induction false} OptionsSaturate(folders: seq<Folder>, parent: Option<string>, indent: string,
                                           fuel: nat, more: nat)
    requires fuel <= more && NoneBelow(folders, parent, fuel)
    ensures Options(folders, parent, indent, fuel) == Options(folders, parent, indent, more)
    decreases fuel, 1, 0
  {
    if fuel == 0 {
      forall i | 0 <= i < |folders| ensures folders[i].parentId != parent {
        assert !Listed(folders, parent, folders[i], 0);
      }
      Seqs.FilterNone(folders, (f: Folder) => f.parentId == parent);
    } else {
      ChildrenMember(folders, parent);
      OptionsOfSaturate(folders, Children(folders, parent), parent, indent, fuel, more);
    }
  }

  lemma {:induction false} OptionsOfSaturate(folders: seq<Folder>, children: seq<Folder>, parent: Option<string>,
                                             indent: string, fuel: nat, more: nat)
    requires 1 <= fuel <= more && NoneBelow(folders, parent, fuel)
    requires forall c :: c in children ==> c in folders && c.parentId == parent
    ensures OptionsOf(folders, children, indent, fuel) == OptionsOf(folders, children, indent, more)
    decreases fuel, 0, |children|
  {
    if children != [] {
      SubtreeSaturate(folders, parent, children[0], indent, fuel, more);
      OptionsOfSaturate(folders, children[1..], parent, indent, fuel, more);
    }
  }

  /** The subtree of one child of `parent` is saturated one level earlier. */
  lemma {:induction false} SubtreeSaturate(folders: seq<Folder>, parent: Option<string>, c: Folder,
                                           indent: string, fuel: nat, more: nat)
    requires 1 <= fuel <= more && NoneBelow(folders, parent, fuel)
    requires c in folders && c.parentId == parent
    ensures Options(folders, Some(c.id), indent + "  ", fuel - 1) == Options(folders, Some(c.id), indent + "  ", more - 1)
    decreases fuel, 0, 0
  {
    NothingBelowChild(folders, parent, c, fuel);
    OptionsSaturate(folders, Some(c.id), indent + "  ", fuel - 1, more - 1);
  }
}
