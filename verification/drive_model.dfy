/**
 The data the `/graph` router works with: drive items as the Graph client
 returns them, the two result shapes it sends to the add-in, and the Graph
 calls it makes. Every call the router awaits is a field of `GraphService`
 that maps the request the router builds to how the awaited call settles;
 the network, the Graph SDK and the page iterator stay behind that record.
 */
module DriveModel {
  import opened Js

  /** A facet of a parsed drive item: missing from the JSON (undefined),
      explicitly null, or an object. The listing loop tests `!== undefined`
      and the link loop tests `!== null`, so all three states matter. */
  datatype Facet = Absent | Null | Present

  /** A child or folder item: the fields the router reads. */
  datatype DriveItem = DriveItem(id: Option<string>, name: Option<string>, file: Facet, folder: Facet)

  /** The `/me/drive` resource. */
  datatype Drive = Drive(id: Option<string>)

  /** The `Type` strings the router writes into its results. */
  datatype ItemKind = File | Shortcut | Folder {
    function Label(): string {
      match this
      case File => "File"
      case Shortcut => "Shortcut"
      case Folder => "Folder"
    }
  }

  /** One entry of the `/folderchildren` result: `{Name, Type, ChildCount}`. */
  datatype ItemDescriptor = ItemDescriptor(name: string, kind: ItemKind, childCount: int)

  /** One entry of the `/folderitemsurls` result: `{Name, Type, WebUrl}`. */
  datatype ItemLink = ItemLink(name: string, kind: ItemKind, webUrl: string)

  /** The case-sensitive suffix that marks a shortcut file. */
  const ShortcutSuffix := ".url"

  predicate IsShortcutName(name: string) {
    EndsWith(name, ShortcutSuffix)
  }

  /** How each awaited Graph call settles, as a function of the request.
      - `exchange`: whether the on-behalf-of exchange for an Authorization header succeeds;
      - `getDrive`: `GET /me/drive`, `None` for a null body;
      - `getItem`: `GET` of a folder by path, `None` for a null body;
      - `getChildren`: `GET` of a children collection drained by the page iterator;
      - `createLink`: `POST .../createlink` for a view-only anonymous link, yielding `link.webUrl`
        (`None` when it is undefined); a response without `link` throws, as does the request;
      - `getDownloadUrl`: `GET` of an item's `@microsoft.graph.downloadUrl` (`None` when absent);
      - `download`: the `axios.get` of that URL, yielding the response text; it also throws
        when the body is not a string, because `match` is then called on a non-string. */
  datatype GraphService = GraphService(
    exchange: string -> bool,
    getDrive: Call<Option<Drive>>,
    getItem: string -> Call<Option<DriveItem>>,
    getChildren: string -> Call<seq<DriveItem>>,
    createLink: string -> Call<Option<string>>,
    getDownloadUrl: string -> Call<Option<string>>,
    download: Option<string> -> Call<string>)

  const DrivesBase := "/drives/"
  const MyItemsBase := "/me/drive/items/"

  /** `/drives/{drive.id || ''}/root:/{folderPath || ''}` */
  function FolderRequest(driveId: string, folderPath: string): string {
    DrivesBase + driveId + "/root:/" + folderPath
  }

  /** `/drives/{drive.id || ''}/items/{folderItem.id || ''}/children` */
  function ChildrenRequest(driveId: string, folderId: string): string {
    DrivesBase + driveId + "/items/" + folderId + "/children"
  }

  /** `/me/drive/items/{id}/createlink` */
  function CreateLinkRequest(id: string): string {
    MyItemsBase + id + "/createlink"
  }

  /** `/me/drive/items/{id}?select=id,@microsoft.graph.downloadUrl` */
  function DownloadUrlRequest(id: string): string {
    MyItemsBase + id + "?select=id,@microsoft.graph.downloadUrl"
  }
}
