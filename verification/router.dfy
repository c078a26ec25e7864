/**
 The two route handlers of the `/graph` router. Each checks the
 Authorization header (401 when it is missing or empty), exchanges it for a
 Graph client, resolves the user's drive and the requested folder, drains
 the folder's children and assembles its result array. A throw from any
 awaited Graph call inside the `try` block becomes a 500 response for the
 whole request; a failed shortcut download is caught where it happens and
 only drops that entry.
 */
module GraphRouter {
  import opened Js
  import opened DriveModel
  import opened Subsequences
  import opened Listing
  import opened Links

  /** What a handler sends: 401 with an empty body, 500 with the serialized
      error, or 200 with the result array. */
  datatype Response<+T> = Unauthorized | ServerError | Ok(body: T) {
    function Status(): int {
      match this
      case Unauthorized => 401
      case ServerError => 500
      case Ok(_) => 200
    }
  }

  /** The resolved drive id (`drive.id || ''`) and the requested folder item. */
  datatype Located = Located(driveId: string, folder: DriveItem)

  /** `GET /me/drive`, then the folder by its path below the drive root.
      A null drive or a null folder is thrown as an error. */
  function LocateFolder(g: GraphService, folderPath: Option<string>): (r: Call<Located>)
    ensures r.Returns? <==>
      && g.getDrive.Returns? && g.getDrive.value.Some?
      && var item := g.getItem(FolderRequest(OrEmpty(g.getDrive.value.value.id), OrEmpty(folderPath)));
         item.Returns? && item.value.Some?
    ensures r.Returns? ==>
      && r.value.driveId == OrEmpty(g.getDrive.value.value.id)
      && g.getItem(FolderRequest(r.value.driveId, OrEmpty(folderPath))) == Returns(Some(r.value.folder))
  {
    match g.getDrive
    case Throws => Throws
    case Returns(None) => Throws
    case Returns(Some(drive)) =>
      var driveId := OrEmpty(drive.id);
      match g.getItem(FolderRequest(driveId, OrEmpty(folderPath)))
      case Throws => Throws
      case Returns(None) => Throws
      case Returns(Some(folder)) => Returns(Located(driveId, folder))
  }

  /** The children request and the page iteration that drains it. */
  function DrainChildren(g: GraphService, loc: Located): Call<seq<DriveItem>> {
    g.getChildren(ChildrenRequest(loc.driveId, OrEmpty(loc.folder.id)))
  }

  /** The children of the folder at `folderPath`, or the failure of any step
      before the assembly loop. */
  function FolderContents(g: GraphService, folderPath: Option<string>): (r: Call<seq<DriveItem>>)
    ensures r.Returns? <==> LocateFolder(g, folderPath).Returns? && DrainChildren(g, LocateFolder(g, folderPath).value).Returns?
    ensures r.Returns? ==> r.value == DrainChildren(g, LocateFolder(g, folderPath).value).value
  {
    match LocateFolder(g, folderPath)
    case Throws => Throws
    case Returns(loc) => DrainChildren(g, loc)
  }

  /** `GET /graph/folderchildren?baseFolder=...` */
  function FolderChildrenRoute(auth: Option<string>, baseFolder: Option<string>, g: GraphService)
    : (r: Response<seq<ItemDescriptor>>)
    ensures r.Status() == 401 <==> !Truthy(auth)
    ensures r.Status() == 500 <==> Truthy(auth) && (!g.exchange(auth.value) || FolderContents(g, baseFolder).Throws?)
    ensures r.Ok? ==> r.body == AssembleListing(FolderContents(g, baseFolder).value)
  {
    if !Truthy(auth) then Unauthorized
    else if !g.exchange(auth.value) then ServerError
    else
      match FolderContents(g, baseFolder)
      case Throws => ServerError
      case Returns(children) => Ok(AssembleListing(children))
  }

  /** `baseFolder?.concat('/', songName || '')`: without a base folder there
      is no path at all, and the root folder is requested. */
  function LinkFolderPath(baseFolder: Option<string>, songName: Option<string>): (r: Option<string>)
    ensures baseFolder.None? ==> r.None?
    ensures baseFolder.Some? ==> r == Some(baseFolder.value + "/" + OrEmpty(songName))
  {
    match baseFolder
    case None => None
    case Some(base) => Some(base + "/" + OrEmpty(songName))
  }

  /** Some awaited step of the link route throws: the exchange, the drive or
      folder lookup, the children request, the folder's link mint, or some
      child's link mint or download-URL lookup. */
  predicate LinkStepFails(auth: string, path: Option<string>, g: GraphService) {
    || !g.exchange(auth)
    || FolderContents(g, path).Throws?
    || MintLink(g, OrEmpty(LocateFolder(g, path).value.folder.id)).Throws?
    || exists i :: 0 <= i < |FolderContents(g, path).value| && ChildLink(g, FolderContents(g, path).value[i]).Throws?
  }

  /** `GET /graph/folderitemsurls?baseFolder=...&songName=...`, in the order
      of its awaits: folder, folder link, children, child loop. */
  function FolderItemsUrlsRoute(auth: Option<string>, baseFolder: Option<string>, songName: Option<string>, g: GraphService)
    : (r: Response<seq<ItemLink>>)
    ensures r.Status() == 401 <==> !Truthy(auth)
    ensures var path := LinkFolderPath(baseFolder, songName);
      r.Status() == 500 <==> Truthy(auth) && LinkStepFails(auth.value, path, g)
    ensures var path := LinkFolderPath(baseFolder, songName);
      r.Ok? ==> AssembleLinks(g, LocateFolder(g, path).value.folder, FolderContents(g, path).value) == Returns(r.body)
  {
    if !Truthy(auth) then Unauthorized
    else if !g.exchange(auth.value) then ServerError
    else
      match LocateFolder(g, LinkFolderPath(baseFolder, songName))
      case Throws => ServerError
      case Returns(loc) =>
        match FolderEntry(g, loc.folder)
        case Throws => ServerError
        case Returns(head) =>
          match DrainChildren(g, loc)
          case Throws => ServerError
          case Returns(children) =>
            match ChildLinks(g, children)
            case Throws => ServerError
            case Returns(tail) => Ok(head + tail)
  }

  /** A child whose link mint throws fails the whole request, whatever the
      other children yield. */
  lemma ChildMintFailureIsFatal(auth: Option<string>, baseFolder: Option<string>, songName: Option<string>,
                                g: GraphService, i: nat)
    requires Truthy(auth) && g.exchange(auth.value)
    requires var contents := FolderContents(g, LinkFolderPath(baseFolder, songName));
      && contents.Returns? && i < |contents.value|
      && var c := contents.value[i];
         c.file != Null && c.id.Some? && !IsShortcutName(OrEmpty(c.name)) && MintLink(g, c.id.value).Throws?
    ensures FolderItemsUrlsRoute(auth, baseFolder, songName, g).Status() == 500
  {
  }

  /** A shortcut child whose download-URL lookup throws fails the whole
      request: the lookup sits outside `ResolveShortcut`'s `try` block. */
  lemma ShortcutLookupFailureIsFatal(auth: Option<string>, baseFolder: Option<string>, songName: Option<string>,
                                     g: GraphService, i: nat)
    requires Truthy(auth) && g.exchange(auth.value)
    requires var contents := FolderContents(g, LinkFolderPath(baseFolder, songName));
      && contents.Returns? && i < |contents.value|
      && var c := contents.value[i];
         c.file != Null && c.id.Some? && IsShortcutName(OrEmpty(c.name))
         && g.getDownloadUrl(DownloadUrlRequest(c.id.value)).Throws?
    ensures FolderItemsUrlsRoute(auth, baseFolder, songName, g).Status() == 500
  {
  }

  /** Download failures are swallowed: replacing how every download settles
      never changes the response status of the link route. */
  lemma DownloadsNeverDecideStatus(auth: Option<string>, baseFolder: Option<string>, songName: Option<string>,
                                   g: GraphService, download: Option<string> -> Call<string>)
    ensures FolderItemsUrlsRoute(auth, baseFolder, songName, g.(download := download)).Status()
         == FolderItemsUrlsRoute(auth, baseFolder, songName, g).Status()
  {
    if Truthy(auth) {
      DownloadsNeverFailSteps(auth.value, LinkFolderPath(baseFolder, songName), g, download);
    }
  }

  /** No awaited step of the link route depends on how downloads settle. */
  lemma DownloadsNeverFailSteps(auth: string, path: Option<string>, g: GraphService,
                                download: Option<string> -> Call<string>)
    ensures LinkStepFails(auth, path, g.(download := download)) == LinkStepFails(auth, path, g)
  {
    var g' := g.(download := download);
    assert LocateFolder(g', path) == LocateFolder(g, path);
    assert FolderContents(g', path) == FolderContents(g, path);
    forall c: DriveItem
      ensures ChildLink(g', c).Throws? <==> ChildLink(g, c).Throws?
    {
    }
  }

  /** With every download failing, no child yields a `Shortcut` entry. */
  lemma NoShortcutWithoutDownloads(g: GraphService, c: DriveItem)
    requires forall u :: g.download(u).Throws?
    ensures var l := ChildLink(g, c);
      l.Returns? && l.value.Some? ==> l.value.value.kind != Shortcut
  {
    if c.file != Null && c.id.Some? && IsShortcutName(OrEmpty(c.name)) {
      var u := g.getDownloadUrl(DownloadUrlRequest(c.id.value));
      if u.Returns? {
        assert g.download(u.value).Throws?;
      }
    }
  }

  /** When every download fails, every shortcut is dropped: a successful
      link result holds no `Shortcut` entry. */
  lemma FailedDownloadsDropShortcuts(auth: Option<string>, baseFolder: Option<string>, songName: Option<string>,
                                     g: GraphService)
    requires forall u :: g.download(u).Throws?
    ensures var r := FolderItemsUrlsRoute(auth, baseFolder, songName, g);
      r.Ok? ==> forall k :: 0 <= k < |r.body| ==> r.body[k].kind != Shortcut
  {
    var r := FolderItemsUrlsRoute(auth, baseFolder, songName, g);
    if r.Ok? {
      var loc := LocateFolder(g, LinkFolderPath(baseFolder, songName)).value;
      var head := FolderEntry(g, loc.folder).value;
      var tail := ChildLinks(g, DrainChildren(g, loc).value).value;
      assert r.body == head + tail;
      ChildLinksWithoutShortcuts(g, DrainChildren(g, loc).value);
      forall k | 0 <= k < |r.body|
        ensures r.body[k].kind != Shortcut
      {
        if k >= |head| {
          assert r.body[k] == tail[k - |head|];
        }
      }
    }
  }

  /** With every download failing, the child loop pushes no `Shortcut` entry. */
  lemma ChildLinksWithoutShortcuts(g: GraphService, children: seq<DriveItem>)
    requires forall u :: g.download(u).Throws?
    requires ChildLinks(g, children).Returns?
    ensures forall k :: 0 <= k < |ChildLinks(g, children).value| ==> ChildLinks(g, children).value[k].kind != Shortcut
  {
    var tail := ChildLinks(g, children).value;
    ChildLinksShape(g, children);
    var f := Settled(ChildStep(g));
    var idx := Hits(children, f);
    forall k | 0 <= k < |tail|
      ensures tail[k].kind != Shortcut
    {
      var c := children[idx[k]];
      assert f(c) == Some(tail[k]);
      NoShortcutWithoutDownloads(g, c);
    }
  }

  /** The listing route's result on success lists, in enumeration order,
      exactly the children with a name and a facet, each with `ChildCount` 0. */
  lemma ListingRouteOutcome(auth: Option<string>, baseFolder: Option<string>, g: GraphService)
    requires FolderChildrenRoute(auth, baseFolder, g).Ok?
    ensures var r, children := FolderChildrenRoute(auth, baseFolder, g).body, FolderContents(g, baseFolder).value;
      var idx := Hits(children, ListingEntry);
      && |r| <= |children|
      && PicksVia(r, children, ListingEntry, idx)
      && forall k :: 0 <= k < |r| ==> r[k].childCount == 0
  {
    var children := FolderContents(g, baseFolder).value;
    ListingIsOrderedSelection(children);
    FilterMapPicks(children, ListingEntry);
  }
}
