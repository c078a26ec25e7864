# OneDrive song links: a Dafny model

This project models the core of an Excel add-in that lets a user browse
OneDrive and insert durable links at the active cell. The core has two parts.

- **The server's `/graph` router** (`src/api/graph.ts`). It has two routes.
  - `/folderchildren` resolves a folder by path, drains its children and
    classifies each one as `File`, `Shortcut` (a name ending in `.url`) or
    `Folder`.
  - `/folderitemsurls` mints a view-only anonymous link for the folder and for
    each child, and resolves `.url` shortcut files to their `URL=` target.
  - Both answer 401 without an Authorization header and 500 when any awaited
    Graph call throws; a failed shortcut download only drops that entry.
- **The add-in pane** (`src/addin/taskpane.js`).
  - A one-slot access-token cache that refreshes 30 seconds before the
    token's `exp` claim.
  - The category and song pickers built from `/folderchildren` listings.
  - Two writers that lay link entries out along the active row, or a listing
    table below the active cell.

Every Graph call the router awaits is a field of `DriveModel.GraphService`.
Each field maps the request path the router builds to how the call settles:
it throws, or it returns a value. The clock, the Office host's token request
and the server's responses are parameters in the same way.

The modules follow the program's structure:

| file | module | models |
|---|---|---|
| `js.dfy` | `Js` | null/undefined, settled calls, truthiness, `endsWith`, `trim` |
| `subsequences.dfy` | `Subsequences` | the push loops: order-preserving selection, with and without throwing steps |
| `url_file.dfy` | `UrlFile` | `content.match(/URL=(.*)/i)` and the trimmed capture |
| `drive_model.dfy` | `DriveModel` | drive items with three-state facets, result records, Graph calls and request paths |
| `listing.dfy` | `Listing` | the classification loop of `/folderchildren` |
| `links.dfy` | `Links` | `GetReadOnlyLink`, `ResolveShortcut` and the child loop of `/folderitemsurls` |
| `router.dfy` | `GraphRouter` | both route handlers and their error policy |
| `token_broker.dfy` | `TokenBroker` | `isTokenNearingExpiry` and `getAccessToken` |
| `pickers.dfy` | `Pickers` | `getSongCategories` and `getSongOptions` |
| `sheet_writers.dfy` | `SheetWriters` | `WriteUrlsToSheet` and `WriteFolderContentsToSheet` |

Three behaviours of the code a reader might not expect:

- In link mode a child folder is labelled `File`, not `Folder`. The child loop
  only tests `file !== null`, and a folder's missing `file` facet passes that
  test (`Links.ChildFolderLabelledFile`).
- The listing loop tests `file !== undefined`. A child whose `file` facet is
  explicitly `null` is therefore listed as a file.
- The song picker's status line counts every listing entry, files included,
  not only the song options it adds.

## Model

| member | source | states |
|---|---|---|
| Js.KeepFrom | src/api/graph.ts:64 | where `trim` starts keeping: every character before that index is trimmable, and the one at it is not |
| Js.KeepUntil | src/api/graph.ts:64 | where `trim` stops keeping: every character from that index on is trimmable, and the one before it is not |
| Js.Trim | src/api/graph.ts:64 | `trim` returns a contiguous piece of its input with no trimmable character at either end, and only trimmable characters around it |
| Js.TrimOfPadded | src/api/graph.ts:64 | `trim` of trimmable padding around text without trimmable ends returns exactly that text |
| Subsequences.FilterMap | src/api/graph.ts:251-274 | the push loop never yields more entries than elements; `Subsequences.FilterMapPicks` and `Subsequences.PicksDetermineFilterMap` characterise its result |
| Subsequences.FilterMapPicks | src/api/graph.ts:251-274 | a push loop's result lists, in ascending index order, the pushed value of every element the step keeps and of no other element |
| Subsequences.PicksDetermineFilterMap | src/api/graph.ts:251-274 | any order-preserving selection of exactly the kept elements equals the loop's result, so the description pins the result down |
| Subsequences.FilterMapFusion | src/addin/taskpane.js:355-363 | filtering the server's listing again on the client equals one selection with the composed step |
| Subsequences.TryFilterMap | src/api/graph.ts:147-171 | a loop whose step may throw fails exactly when some element's step throws; otherwise it returns the selection of the settled steps |
| UrlFile.FirstKey | src/api/graph.ts:61 | finds the leftmost `URL=` key (letters in either ASCII case) at or after a position, or reports that none follows |
| UrlFile.LineEnd | src/api/graph.ts:61 | `.*` extends exactly to the first line terminator or to the end of the text |
| UrlFile.MatchUrlLine | src/api/graph.ts:61-63 | no match exactly when the text holds no key; otherwise the capture is one line and follows a key in the text |
| UrlFile.ShortcutTarget | src/api/graph.ts:61-67 | a text without a key yields `''`; any result is trimmed and holds no line terminator |
| UrlFile.MatchAfterPrefix | src/api/graph.ts:61-64 | a key placed after key-free text is the match, and the capture is the rest of its line |
| UrlFile.UrlFileRoundTrip | src/api/graph.ts:56-72 | reading a `[InternetShortcut]` file written for a one-line, trimmed target returns that target |
| UrlFile.KeyNotAnchored | src/api/graph.ts:61 | the key is not anchored: `BASEURL=` followed by a target yields that target |
| UrlFile.KeyIgnoresCase | src/api/graph.ts:61-64 | a lower-case `url=` key matches, and the blanks around the target are trimmed away |
| Listing.ListingEntry | src/api/graph.ts:255-273 | a child is listed exactly when it has a name and a `file` or `folder` facet; it is a `Folder` exactly when its `file` facet is undefined; it is a `Shortcut` exactly when it has a `file` facet and a `.url` name; `ChildCount` is always 0 |
| Listing.AssembleListing | src/api/graph.ts:251-274 | the listing loop; `Listing.ListingIsOrderedSelection` states that it lists, in order, exactly the named children with a facet, each with `ChildCount` 0 |
| Listing.ListingIsOrderedSelection | src/api/graph.ts:251-274 | the listing keeps the enumeration order, lists every named child with a facet, and counts no children |
| Listing.UpperCaseSuffixIsFile | src/api/graph.ts:260 | the `.url` test is case-sensitive: `X.URL` is listed as a `File` |
| Listing.FileFacetWins | src/api/graph.ts:255-266 | a child with both facets, or with an explicitly null `file` facet, is listed as a file |
| Listing.MusicFolderListing | src/api/graph.ts:251-274 | a folder holding `songA.mp3`, `songB.url` and the folder `Sub` lists them as `File`, `Shortcut` and `Folder`, in that order |
| Links.MintLink | src/api/graph.ts:27-41 | `GetReadOnlyLink` posts to `/me/drive/items/{id}/createlink`; `Links.FolderEntry`, `Links.ChildLink` and `GraphRouter.ChildMintFailureIsFatal` state what its outcomes do to the route |
| Links.ResolveShortcut | src/api/graph.ts:45-73 | fails exactly when the download-URL lookup fails; a failed download yields `''`; a download yields its `URL=` target, which is trimmed and one line |
| Links.FolderEntry | src/api/graph.ts:125-128 | fails exactly when the folder's link mint fails; otherwise one `Folder` entry with the folder's name and minted URL when that URL is defined, else none |
| Links.ChildLink | src/api/graph.ts:147-171 | a child with a null `file` facet or no id is skipped; the step fails exactly when the child's mint, or for a shortcut its download-URL lookup, fails; a shortcut is pushed exactly when its resolved target is non-empty; any other child is pushed exactly when its mint yields a URL; no child is labelled `Folder` |
| Links.ChildLinks | src/api/graph.ts:147-171 | the child loop fails exactly when some child's step fails, and otherwise pushes at most one entry per child; `Links.ChildLinksShape` gives their order |
| Links.AssembleLinks | src/api/graph.ts:125-171 | the link result fails exactly when the folder's mint or some child's step fails, and otherwise holds at most one entry more than there are children; `Links.LinkResultShape` gives its shape |
| Links.ChildLinksShape | src/api/graph.ts:147-171 | the child entries are an order-preserving selection of the children, and none of them is a `Folder` |
| Links.LinkResultShape | src/api/graph.ts:125-171 | a link result holds at most one entry per child plus the folder's own; a `Folder` entry can only come first, and it is the folder's own entry |
| Links.ChildFolderLabelledFile | src/api/graph.ts:148 | a child folder whose mint yields a URL is pushed as a `File` |
| Links.UnresolvedShortcutDropped | src/api/graph.ts:56-72 | a shortcut whose download fails, or whose text has no `URL=` line, is dropped without failing the loop |
| GraphRouter.LocateFolder | src/api/graph.ts:103-121 | succeeds exactly when the drive is found and non-null and the folder at `/drives/{id}/root:/{path}` is found and non-null |
| GraphRouter.DrainChildren | src/api/graph.ts:130-143 | the children request for `/drives/{drive id}/items/{folder id}/children` and its page iteration; `GraphRouter.FolderContents` states when it is reached and what it yields |
| GraphRouter.FolderContents | src/api/graph.ts:224-247 | the children are available exactly when the folder is located and its children request succeeds, and they are then what that request drains |
| GraphRouter.FolderChildrenRoute | src/api/graph.ts:196-290 | 401 exactly without a truthy header; 500 exactly when the exchange, the folder lookup or the children request fails; otherwise 200 with the classified listing |
| GraphRouter.FolderItemsUrlsRoute | src/api/graph.ts:85-186 | 401 exactly without a truthy header; once authorised, 500 exactly when the exchange, the folder lookup, the children request, the folder's mint or some child's step fails; on success the body is the folder entry followed by the child entries |
| GraphRouter.ChildMintFailureIsFatal | src/api/graph.ts:164 | one child's failed link mint makes the whole request answer 500 |
| GraphRouter.ShortcutLookupFailureIsFatal | src/api/graph.ts:48-50 | one shortcut's failed download-URL lookup makes the whole request answer 500 |
| GraphRouter.DownloadsNeverDecideStatus | src/api/graph.ts:56-70 | how downloads settle never changes the link route's status |
| GraphRouter.NoShortcutWithoutDownloads | src/api/graph.ts:56-72 | when every download fails, no child yields a `Shortcut` entry |
| GraphRouter.FailedDownloadsDropShortcuts | src/api/graph.ts:159-162 | when every download fails, a successful link result holds no `Shortcut` entry |
| GraphRouter.ListingRouteOutcome | src/api/graph.ts:251-280 | a 200 listing is an order-preserving selection of the drained children, each with `ChildCount` 0 |
| TokenBroker.NearingExpiry | src/addin/taskpane.js:46-52 | fails exactly when the payload cannot be decoded; true exactly when the `exp` claim converts to a number other than NaN and `Infinity` and the clock has reached 30 seconds before it |
| TokenBroker.ThresholdWithoutDivision | src/addin/taskpane.js:49-51 | `floor(now/1000) + 30 >= exp` holds exactly from millisecond `(exp - 30) * 1000` on |
| TokenBroker.GetAccessToken | src/addin/taskpane.js:59-74 | asks the host exactly when the cache is empty or its token is nearing expiry; a successful answer replaces the cache and is returned; a failure leaves the cache unchanged; otherwise the cached token is returned |
| TokenBroker.Refresh | src/addin/taskpane.js:68-69 | asking the host; `TokenBroker.GetAccessToken` states that success replaces the cache and failure keeps it |
| TokenBroker.NoRefreshWhileFresh | src/addin/taskpane.js:67-73 | any sequence of calls made before the eager threshold never asks the host and keeps the cached token |
| TokenBroker.MissingExpiryNeverRefreshes | src/addin/taskpane.js:47-51 | a token whose `exp` claim converts to NaN is never replaced |
| TokenBroker.ZeroExpiryAlwaysRefreshes | src/addin/taskpane.js:47-51 | a token whose `exp` claim converts to 0, such as `null` or `false`, is always due: while the host keeps answering with such tokens, every call asks it again |
| TokenBroker.NearingExpiryStays | src/addin/taskpane.js:49-51 | a token due for replacement stays due as the clock advances |
| TokenBroker.FirstCallFetchesThenCaches | src/addin/taskpane.js:67-73 | the first call asks the host; a later call before the threshold is answered from the cache |
| Pickers.FillCategories | src/addin/taskpane.js:348-366 | a failure keeps the options and reports an error; an empty listing keeps the options and reports 0; otherwise the options are the folder entries, named alike, and the count is their number |
| Pickers.FillSongs | src/addin/taskpane.js:418-434 | the reported count is the listing's length; an empty listing keeps the options; otherwise the options are the folder entries valued `category/Name` |
| Pickers.CategoryOption | src/addin/taskpane.js:356-363 | a folder entry becomes an option named and valued alike; `Pickers.CategoryOfChild` and `Pickers.CategoriesAreSubfolders` state which children become options |
| Pickers.SongOption | src/addin/taskpane.js:424-430 | a folder entry becomes an option valued `category/Name`; `Pickers.SongOfChild` and `Pickers.SongsAreSubfolders` state which children become options |
| Pickers.CategoryOfChild | src/addin/taskpane.js:355-363 | a child becomes a category exactly when it is named, has no `file` facet and has a `folder` facet |
| Pickers.CategoriesAreSubfolders | src/addin/taskpane.js:355-363 | the category options are, in order, exactly the named sub-folders of the base folder |
| Pickers.SongOfChild | src/addin/taskpane.js:424-430 | a child of the category folder becomes a song exactly when it is named, has no `file` facet and has a `folder` facet; its value is `category/name` |
| Pickers.SongsAreSubfolders | src/addin/taskpane.js:424-430 | the song options are, in order, exactly the named sub-folders of the category folder, valued `category/name` and shown by name |
| Pickers.CategoriesFromServer | src/addin/taskpane.js:337-363 | a successful, non-empty listing of the base folder fills the category picker with exactly the base folder's named sub-folders, in order |
| Pickers.FilesOnlyEmptiesCategories | src/addin/taskpane.js:351-363 | a non-empty listing without folders empties the category `<select>` |
| Pickers.SongLinkFolder | src/addin/taskpane.js:427 | a chosen song makes the link route look up `base/category/name`, the song folder below the listed category |
| Pickers.UncategorisedSongPath | src/addin/taskpane.js:400-407 | with no category, songs are listed from `base` but the link route looks up `base//name` |
| Pickers.CascadeListsFirstCategory | src/addin/taskpane.js:366-369 | after filling the categories, the songs are listed from `base/` followed by the first sub-folder's name |
| SheetWriters.ClearForLinks | src/addin/taskpane.js:557-563 | on a non-blank sheet, fails exactly when the clear width is not positive; otherwise clears the active row from the next column on |
| SheetWriters.ClearForLinksChecked | src/addin/taskpane.js:557-563 | the same clear with an empty range skipped; agrees with `ClearForLinks` whenever that succeeds |
| SheetWriters.WriteLinkRow | src/addin/taskpane.js:580-588 | entry `i` lands `i` columns right of the active cell, as a hyperlink to its URL showing its name, keeping the cell's format; nothing else changes |
| SheetWriters.WriteUrlsToSheet | src/addin/taskpane.js:538-595 | fails exactly on a non-blank sheet when `columnIndex >= usedRange.columnCount + 1`; otherwise every entry is written in order, and only the cleared range and the written cells change |
| SheetWriters.WriteUrlsToSheetChecked | src/addin/taskpane.js:538-595 | with the empty clear skipped, every entry is written, wherever the active cell is |
| SheetWriters.ClearWidthZeroAborts | src/addin/taskpane.js:561 | an active cell whose column index is one more than the used range's width makes the clear width 0, so the links are never written |
| SheetWriters.ActiveInsideShiftedRangeAborts | src/addin/taskpane.js:561 | with the used range E1:F9 (two columns wide) and the active cell E5 inside it, the clear width is -1 and the links are never written |
| SheetWriters.WriteHeaders | src/addin/taskpane.js:686-702 | `Name`, `Type` and `Children` are written bold and centred along the active row |
| SheetWriters.WriteListingRow | src/addin/taskpane.js:704-711 | one iteration writes entry `i`'s name, type label and child count into row `i + 1` and changes nothing else |
| SheetWriters.WriteListingBlock | src/addin/taskpane.js:686-711 | headers at row 0, entry `i` at row `i + 1`, each cell holding only its value, inside the header and entry rows |
| SheetWriters.WriteFolderContentsToSheet | src/addin/taskpane.js:644-719 | header and entries land below the active cell; the last row of the cleared `items.length + 2` by 3 region stays blank; nothing outside that region changes |

## Left out

- The network, the Graph SDK, `axios` and the on-behalf-of exchange are oracle fields of `GraphService`. `src/api/auth` and `getAuthenticatedClient` are not part of this model.
- `graph.PageIterator` is not modelled. The `getChildren` oracle yields the fully drained children.
- Link minting is a pure function of the request. Minting the same item twice therefore gives the same answer, although the real service may answer differently.
- `GetReadOnlyLink` reading `link.webUrl` from a response without `link` throws. It is folded into the `createLink` oracle's `Throws`.
- A `webUrl` that is `null` rather than undefined is treated as undefined, so its entry is not pushed.
- The serialized error in a 500 body and all console logging are left out.
- Query strings are not URL-encoded by the client. The server is assumed to receive the paths as written.
- The `/graph/itemurl` route called by `getItemLink` has no server implementation in the repository.
- `getSongLinks`, `getItemLink` and `getFolderContents` only fetch and call the writers. Their status lines are not modelled.
- TokenBroker.NearingExpiry: the JWT is not decoded. A token carries what the comparison makes of its `exp` claim: a thrown decoding error; `None` for a claim that `Number` converts to NaN or `Infinity`; otherwise the least integer not below the converted number (`null`, `false` and `''` give 0, `true` gives 1, a numeric string its number, a fractional NumericDate its ceiling, `-Infinity` 0).
- The fallback `OfficeRT` object that throws when `office.js` is not loaded is covered by the host answer `Throws`.
- Overlapping `getAccessToken` calls race to refresh. The model is sequential.
- DOM, jQuery, the dialog and consent UI, `showStatus`, `toggleOverlay`, `Excel.run` and `context.sync` are left out.
- `autofitColumns` and `horizontalAlignment` values other than centred are left out.
- SheetWriters.WriteUrlsToSheet: the used range's column count is an input, not computed from the sheet.
- SheetWriters.WriteUrlsToSheetChecked: like the code, it clears from the active cell's column by the used range's width. When the used range starts right of column A, stale cells in its right-hand columns can stay. The corrected member does not fix that.
- SheetWriters.WriteUrlsToSheet: sheet size limits are not modelled, so a resize past the last row or column cannot fail.
- The model assumes Excel rejects a range without columns. It does not model what Excel does with other out-of-range arguments.
- The writers take at least one entry, as all their callers check.
- Server setup, static hosting, TLS, the build configuration and `src/addin/consent.js` are not part of this model.

## Findings

| source | as written | input that shows it | evidently intended | confidence | as-written member | corrected member |
|---|---|---|---|---|---|---|
| src/addin/taskpane.js:561 | the range cleared before writing links is `usedRange.columnCount - cell.columnIndex + 1` columns wide. That width is 0 or negative whenever `columnIndex >= usedRange.columnCount + 1`. Because `columnCount` is the used range's width and not its right edge, this includes active cells inside a used range that starts right of column A. The error aborts `Excel.run`, and `getSongLinks` still reports `Inserted N song file links` | a used range E1:F9 (`columnCount` 2) with the active cell E5 (`columnIndex` 4), giving width -1 | skip the clear when there is nothing to clear, and write the links | medium (depends on Excel rejecting a range without columns); not executed | SheetWriters.ClearForLinks | SheetWriters.WriteUrlsToSheetChecked |
