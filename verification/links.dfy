/**
 The per-item steps of `GET /graph/folderitemsurls`: minting a view-only
 anonymous link (`GetReadOnlyLink`), resolving a `.url` shortcut to its
 target (`ResolveShortcut`), and the loop over the drained children that
 uses them.

 The loop's guard is `file !== null`, which a missing facet passes: child
 folders are processed like files and labelled `File`. Shortcut resolution
 swallows download and parse failures (the shortcut is then dropped), while
 a failed link mint or a failed download-URL lookup throws out of the loop.
 */
module Links {
  import opened Js
  import opened DriveModel
  import opened Subsequences
  import opened UrlFile

  /** `GetReadOnlyLink(client, id)`: the `webUrl` of a freshly created link. */
  function MintLink(g: GraphService, id: string): Call<Option<string>> {
    g.createLink(CreateLinkRequest(id))
  }

  /** `ResolveShortcut(client, id)`. The download-URL lookup sits outside the
      `try` block, so its failure propagates; a failed download, or a body
      `match` cannot be called on, leaves the result `''`. */
  function ResolveShortcut(g: GraphService, id: string): (r: Call<string>)
    ensures r.Throws? <==> g.getDownloadUrl(DownloadUrlRequest(id)).Throws?
    ensures r.Returns? ==> IsTrimmed(r.value) && NoLineTerminator(r.value)
    ensures r.Returns? ==>
      var d := g.download(g.getDownloadUrl(DownloadUrlRequest(id)).value);
      && (d.Throws? ==> r.value == "")
      && (d.Returns? ==> r.value == ShortcutTarget(d.value))
      && (d.Returns? && NoKey(d.value) ==> r.value == "")
  {
    match g.getDownloadUrl(DownloadUrlRequest(id))
    case Throws => Throws
    case Returns(downloadUrl) =>
      match g.download(downloadUrl)
      case Throws => Returns("")
      case Returns(content) => Returns(ShortcutTarget(content))
  }

  /** The entry for the requested folder itself, pushed before any child:
      present exactly when its link mint yields a defined `webUrl`. */
  function FolderEntry(g: GraphService, folder: DriveItem): (r: Call<seq<ItemLink>>)
    ensures r.Throws? <==> MintLink(g, OrEmpty(folder.id)).Throws?
    ensures r.Returns? ==> (|r.value| == 1 <==> MintLink(g, OrEmpty(folder.id)).value.Some?)
    ensures r.Returns? ==> |r.value| <= 1
    ensures r.Returns? ==> forall l :: l in r.value ==>
      l == ItemLink(OrEmpty(folder.name), Folder, MintLink(g, OrEmpty(folder.id)).value.value)
  {
    match MintLink(g, OrEmpty(folder.id))
    case Throws => Throws
    case Returns(None) => Returns([])
    case Returns(Some(url)) => Returns([ItemLink(OrEmpty(folder.name), Folder, url)])
  }

  /** What one iteration of the child loop pushes, or whether it throws. */
  function ChildLink(g: GraphService, c: DriveItem): (r: Call<Option<ItemLink>>)
    ensures c.file == Null || c.id.None? ==> r == Returns(None)
    ensures r.Throws? <==>
      && c.file != Null && c.id.Some?
      && (if IsShortcutName(OrEmpty(c.name))
          then g.getDownloadUrl(DownloadUrlRequest(c.id.value)).Throws?
          else MintLink(g, c.id.value).Throws?)
    ensures r.Returns? && r.value.Some? ==>
      && r.value.value.name == OrEmpty(c.name)
      && r.value.value.kind != Folder
      && (r.value.value.kind == Shortcut <==> IsShortcutName(OrEmpty(c.name)))
    ensures r.Returns? && c.file != Null && c.id.Some? && IsShortcutName(OrEmpty(c.name)) ==>
      (r.value.Some? <==> ResolveShortcut(g, c.id.value).value != "")
      && (r.value.Some? ==> r.value.value.webUrl == ResolveShortcut(g, c.id.value).value)
    ensures r.Returns? && c.file != Null && c.id.Some? && !IsShortcutName(OrEmpty(c.name)) ==>
      (r.value.Some? <==> MintLink(g, c.id.value).value.Some?)
      && (r.value.Some? ==> r.value.value.webUrl == MintLink(g, c.id.value).value.value)
  {
    if c.file == Null then Returns(None)
    else if c.id.None? then Returns(None)
    else
      var id := c.id.value;
      if c.name.Some? && IsShortcutName(c.name.value) then
        match ResolveShortcut(g, id)
        case Throws => Throws
        case Returns(target) =>
          if target != "" then Returns(Some(ItemLink(OrEmpty(c.name), Shortcut, target))) else Returns(None)
      else
        match MintLink(g, id)
        case Throws => Throws
        case Returns(None) => Returns(None)
        case Returns(Some(url)) => Returns(Some(ItemLink(OrEmpty(c.name), File, url)))
  }

  /** The loop body as a step over children. */
  function ChildStep(g: GraphService): DriveItem -> Call<Option<ItemLink>> {
    c => ChildLink(g, c)
  }

  /** The loop over the drained children: it aborts as soon as one child's
      step throws, and pushes at most one entry per child. */
  function ChildLinks(g: GraphService, children: seq<DriveItem>): (r: Call<seq<ItemLink>>)
    ensures r.Throws? <==> exists i :: 0 <= i < |children| && ChildLink(g, children[i]).Throws?
    ensures r.Returns? ==> |r.value| <= |children|
  {
    TryFilterMap(children, ChildStep(g))
  }

  /** The whole link result once folder and children are known: the folder's
      own entry, then the children's entries. */
  function AssembleLinks(g: GraphService, folder: DriveItem, children: seq<DriveItem>): (r: Call<seq<ItemLink>>)
    ensures r.Throws? <==>
      || MintLink(g, OrEmpty(folder.id)).Throws?
      || exists i :: 0 <= i < |children| && ChildLink(g, children[i]).Throws?
    ensures r.Returns? ==> |r.value| <= 1 + |children|
  {
    match FolderEntry(g, folder)
    case Throws => Throws
    case Returns(head) =>
      match ChildLinks(g, children)
      case Throws => Throws
      case Returns(tail) => Returns(head + tail)
  }

  /** How many entries precede the children's: 1 when the folder's own
      link mint yields a defined `webUrl`, else 0. */
  function FolderOffset(g: GraphService, folder: DriveItem): nat {
    var m := MintLink(g, OrEmpty(folder.id));
    if m.Returns? && m.value.Some? then 1 else 0
  }

  /** The children's entries are an order-preserving selection of the
      children, and none of them is labelled `Folder`. */
  lemma ChildLinksShape(g: GraphService, children: seq<DriveItem>)
    requires ChildLinks(g, children).Returns?
    ensures var tail, idx := ChildLinks(g, children).value, Hits(children, Settled(ChildStep(g)));
      && PicksVia(tail, children, Settled(ChildStep(g)), idx)
      && forall k :: 0 <= k < |tail| ==> tail[k].kind != Folder
  {
    var tail := ChildLinks(g, children).value;
    var f := Settled(ChildStep(g));
    var idx := Hits(children, f);
    FilterMapPicks(children, f);
    forall k | 0 <= k < |tail|
      ensures tail[k].kind != Folder
    {
      assert f(children[idx[k]]) == Some(tail[k]);
    }
  }

  /** Shape of a successful link result: at most one entry per child after
      the folder's own; a `Folder` entry can only be the first one, and it is
      there exactly when the folder's link mint was defined; the entries
      after it are an order-preserving selection of the children. */
  lemma LinkResultShape(g: GraphService, folder: DriveItem, children: seq<DriveItem>)
    requires AssembleLinks(g, folder, children).Returns?
    ensures var r, h := AssembleLinks(g, folder, children).value, FolderOffset(g, folder);
      h <= |r| <= 1 + |children|
    ensures var r := AssembleLinks(g, folder, children).value;
      FolderOffset(g, folder) == 1 ==>
        r[0] == ItemLink(OrEmpty(folder.name), Folder, MintLink(g, OrEmpty(folder.id)).value.value)
    ensures var r := AssembleLinks(g, folder, children).value;
      forall k :: 0 <= k < |r| && r[k].kind == Folder ==> k == 0 && FolderOffset(g, folder) == 1
    ensures var r, h := AssembleLinks(g, folder, children).value, FolderOffset(g, folder);
      PicksVia(r[h..], children, Settled(ChildStep(g)), Hits(children, Settled(ChildStep(g))))
  {
    var head := FolderEntry(g, folder).value;
    var tail := ChildLinks(g, children).value;
    var r := head + tail;
    ChildLinksShape(g, children);
    assert |head| == FolderOffset(g, folder);
    assert r[|head|..] == tail;
    forall k | 0 <= k < |r| && r[k].kind == Folder
      ensures k == 0 && |head| == 1
    {
    }
  }

  /** A child folder whose link mint yields a URL is listed as a `File`:
      the guard `file !== null` lets it through and only the name decides. */
  lemma ChildFolderLabelledFile(g: GraphService, id: string, name: Option<string>, url: string)
    requires !IsShortcutName(OrEmpty(name))
    requires MintLink(g, id) == Returns(Some(url))
    ensures ChildLink(g, DriveItem(Some(id), name, Absent, Present)) == Returns(Some(ItemLink(OrEmpty(name), File, url)))
  {
  }

  /** A shortcut whose content holds no `URL=` line, or whose download
      fails, is dropped without failing the loop. */
  lemma UnresolvedShortcutDropped(g: GraphService, c: DriveItem)
    requires c.file != Null && c.id.Some? && c.name.Some? && IsShortcutName(c.name.value)
    requires g.getDownloadUrl(DownloadUrlRequest(c.id.value)).Returns?
    requires var d := g.download(g.getDownloadUrl(DownloadUrlRequest(c.id.value)).value);
      d.Throws? || NoKey(d.value)
    ensures ChildLink(g, c) == Returns(None)
  {
  }
}
