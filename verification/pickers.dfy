/**
 The two cascading pickers of the add-in pane. `getSongCategories` lists the
 base folder and fills the category `<select>` with its sub-folders;
 `getSongOptions` lists the chosen category and fills the song `<select>`
 with its sub-folders, each option carrying the path of the song folder
 below the base folder. Both ask the server's `/graph/folderchildren` route
 and leave their `<select>` alone when the answer is an empty array or an
 error.
 */
module Pickers {
  import opened Js
  import opened DriveModel
  import opened Subsequences
  import opened Listing
  import opened GraphRouter

  /** An `<option>`: its `value` and its `textContent`. */
  datatype SelectOption = SelectOption(value: string, text: string)

  /** A `<select>` element: its options and its current value. */
  datatype Select = Select(options: seq<SelectOption>, value: string)

  /** How the listing request ended for the client: the parsed array of an
      `ok` response, or nothing (an error status, or a thrown token request
      or fetch). */
  datatype Fetched = Failed | Listed(entries: seq<ItemDescriptor>)

  /** What the status line reports: `got N ...`, or an error. */
  datatype Status = Loaded(count: nat) | Error

  /** The client's view of a server response. */
  function Received(r: Response<seq<ItemDescriptor>>): (f: Fetched)
    ensures f.Listed? <==> r.Ok?
    ensures f.Listed? ==> f.entries == r.body
  {
    if r.Ok? then Listed(r.body) else Failed
  }

  /** A `<select>` after `empty()` and appending `options`: the browser
      selects the first option, and an empty `<select>` has value `''`
      once `|| ''` is applied. */
  function Repopulated(options: seq<SelectOption>): (s: Select)
    ensures s.options == options
    ensures |options| == 0 ==> s.value == ""
    ensures |options| > 0 ==> s.value == options[0].value
  {
    Select(options, if |options| == 0 then "" else options[0].value)
  }

  /** The category option for one listing entry: folders only, named alike. */
  function CategoryOption(e: ItemDescriptor): Option<SelectOption> {
    if e.kind == Folder then Some(SelectOption(e.name, e.name)) else None
  }

  /** The song option for one entry of category `category`: its value is
      `category + '/' + Name`, even when `category` is empty. */
  function SongOption(category: string): ItemDescriptor -> Option<SelectOption> {
    (e: ItemDescriptor) => if e.kind == Folder then Some(SelectOption(category + "/" + e.name, e.name)) else None
  }

  /** The category `<select>` and status line after `getSongCategories`.
      The count is the number of folders appended. */
  function FillCategories(select: Select, fetched: Fetched): (r: (Select, Status))
    ensures fetched.Failed? ==> r == (select, Error)
    ensures fetched.Listed? && |fetched.entries| == 0 ==> r == (select, Loaded(0))
    ensures fetched.Listed? && |fetched.entries| > 0 ==>
      && r.0 == Repopulated(FilterMap(fetched.entries, CategoryOption))
      && r.1 == Loaded(|r.0.options|)
  {
    match fetched
    case Failed => (select, Error)
    case Listed(entries) =>
      if |entries| == 0 then (select, Loaded(0))
      else
        var options := FilterMap(entries, CategoryOption);
        (Repopulated(options), Loaded(|options|))
  }

  /** The folder `getSongOptions` lists: the base folder, or the base
      folder followed by `/` and the category when one is chosen. */
  function SongListingPath(base: string, category: string): (p: string)
    ensures category == "" ==> p == base
    ensures category != "" ==> p == base + "/" + category
  {
    if category != "" then base + "/" + category else base
  }

  /** The song `<select>` and status line after `getSongOptions` for the
      category `category`. The count reports every entry of the listing,
      files included, not the number of options. */
  function FillSongs(select: Select, category: string, fetched: Fetched): (r: (Select, Status))
    ensures fetched.Failed? ==> r == (select, Error)
    ensures fetched.Listed? ==> r.1 == Loaded(|fetched.entries|)
    ensures fetched.Listed? && |fetched.entries| == 0 ==> r.0 == select
    ensures fetched.Listed? && |fetched.entries| > 0 ==>
      r.0 == Repopulated(FilterMap(fetched.entries, SongOption(category)))
  {
    match fetched
    case Failed => (select, Error)
    case Listed(entries) =>
      if |entries| == 0 then (select, Loaded(0))
      else (Repopulated(FilterMap(entries, SongOption(category))), Loaded(|entries|))
  }

  /** The category step composed with the listing step: a child becomes a
      category exactly when it is a named item without a `file` facet and
      with a `folder` facet. */
  function CategoryOfChild(c: DriveItem): (r: Option<SelectOption>)
    ensures r.Some? <==> c.name.Some? && c.file == Absent && c.folder != Absent
    ensures r.Some? ==> r.value == SelectOption(c.name.value, c.name.value)
  {
    match ListingEntry(c)
    case None => None
    case Some(e) => CategoryOption(e)
  }

  /** The category options built from a folder's listing are, in enumeration
      order, exactly its named children that have a `folder` facet and no
      `file` facet, each shown and valued by its name. */
  lemma CategoriesAreSubfolders(children: seq<DriveItem>)
    ensures var opts := FilterMap(AssembleListing(children), CategoryOption);
      && opts == FilterMap(children, CategoryOfChild)
      && PicksVia(opts, children, CategoryOfChild, Hits(children, CategoryOfChild))
  {
    FilterMapFusion(children, ListingEntry, CategoryOption);
    FilterMapCongruence(children, AndThen(ListingEntry, CategoryOption), CategoryOfChild);
    FilterMapPicks(children, CategoryOfChild);
  }

  /** The song step composed with the listing step: a child of the category
      folder becomes a song exactly when it is a named item without a `file`
      facet and with a `folder` facet, valued by its path below the base. */
  function SongOfChild(category: string, c: DriveItem): (r: Option<SelectOption>)
    ensures r.Some? <==> c.name.Some? && c.file == Absent && c.folder != Absent
    ensures r.Some? ==> r.value == SelectOption(category + "/" + c.name.value, c.name.value)
  {
    match ListingEntry(c)
    case None => None
    case Some(e) => SongOption(category)(e)
  }

  function SongStep(category: string): DriveItem -> Option<SelectOption> {
    c => SongOfChild(category, c)
  }

  /** The song options built from a category's listing are, in enumeration
      order, exactly its named sub-folders, each valued `category/name`. */
  lemma SongsAreSubfolders(category: string, children: seq<DriveItem>)
    ensures var opts := FilterMap(AssembleListing(children), SongOption(category));
      && opts == FilterMap(children, SongStep(category))
      && PicksVia(opts, children, SongStep(category), Hits(children, SongStep(category)))
  {
    FilterMapFusion(children, ListingEntry, SongOption(category));
    FilterMapCongruence(children, AndThen(ListingEntry, SongOption(category)), SongStep(category));
    FilterMapPicks(children, SongStep(category));
  }

  /** From server to picker: a successful, non-empty listing of the base
      folder fills the category `<select>` with exactly the base folder's
      named sub-folders, in enumeration order. */
  lemma CategoriesFromServer(select: Select, auth: Option<string>, base: string, g: GraphService)
    requires FolderChildrenRoute(auth, Some(base), g).Ok?
    requires |FolderChildrenRoute(auth, Some(base), g).body| > 0
    ensures FillCategories(select, Received(FolderChildrenRoute(auth, Some(base), g))).0.options
         == FilterMap(FolderContents(g, Some(base)).value, CategoryOfChild)
  {
    CategoriesAreSubfolders(FolderContents(g, Some(base)).value);
  }

  /** A category with no folders empties the category `<select>`: a
      non-empty listing always replaces the options, even by none. */
  lemma FilesOnlyEmptiesCategories(select: Select, entries: seq<ItemDescriptor>)
    requires |entries| > 0
    requires forall k :: 0 <= k < |entries| ==> entries[k].kind != Folder
    ensures FillCategories(select, Listed(entries)) == (Select([], ""), Loaded(0))
  {
    FilterMapNone(entries, CategoryOption);
  }

  /** The song folder the link route is asked for is the song's folder below
      the category that listed it: `base/category/name`. */
  lemma SongLinkFolder(base: string, category: string, e: ItemDescriptor)
    requires e.kind == Folder && category != ""
    ensures var v := SongOption(category)(e).value.value;
      LinkFolderPath(Some(base), Some(v)) == Some(SongListingPath(base, category) + "/" + e.name)
  {
    assert base + "/" + (category + "/" + e.name) == base + "/" + category + "/" + e.name;
  }

  /** Without a chosen category the song option's value starts with `/`, so
      the link route is asked for `base//name` although the song was listed
      in `base`. */
  lemma UncategorisedSongPath(base: string, e: ItemDescriptor)
    requires e.kind == Folder
    ensures var v := SongOption("")(e).value.value;
      && SongListingPath(base, "") == base
      && LinkFolderPath(Some(base), Some(v)) == Some(base + "//" + e.name)
  {
    assert base + "/" + ("" + "/" + e.name) == base + "//" + e.name;
  }

  /** Filling the categories cascades into the songs of the first category:
      after a listing with at least one folder, `getSongOptions` lists the
      base folder followed by the first sub-folder's name. */
  lemma CascadeListsFirstCategory(select: Select, base: string, children: seq<DriveItem>, i: nat)
    requires i < |children| && CategoryOfChild(children[i]).Some?
    requires forall j :: 0 <= j < i ==> CategoryOfChild(children[j]).None?
    ensures var categories := FillCategories(select, Listed(AssembleListing(children))).0;
      && categories.value == children[i].name.value
      && (categories.value != "" ==> SongListingPath(base, categories.value) == base + "/" + children[i].name.value)
  {
    CategoriesAreSubfolders(children);
    FilterMapFirst(children, CategoryOfChild, i);
    assert |AssembleListing(children)| > 0 by {
      ListingIsOrderedSelection(children);
    }
  }
}
