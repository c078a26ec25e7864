/**
 The classification loop of `GET /graph/folderchildren`: once the children
 are drained, each child with a `file` facet and a name becomes a `File` or,
 when its name ends in `.url`, a `Shortcut`; otherwise a child with a
 `folder` facet and a name becomes a `Folder`; every other child is skipped.
 `ChildCount` is always 0: grandchildren are never counted.
 */
module Listing {
  import opened Js
  import opened DriveModel
  import opened Subsequences

  /** What the loop pushes for one child. The `file` facet is checked first,
      and against `undefined` only: a `null` facet counts as present. */
  function ListingEntry(c: DriveItem): (r: Option<ItemDescriptor>)
    ensures r.Some? <==> c.name.Some? && (c.file != Absent || c.folder != Absent)
    ensures r.Some? ==> r.value.name == c.name.value && r.value.childCount == 0
    ensures r.Some? ==> (r.value.kind == Folder <==> c.file == Absent)
    ensures r.Some? ==> (r.value.kind == Shortcut <==> c.file != Absent && IsShortcutName(c.name.value))
  {
    if c.file != Absent then
      if c.name.Some? then
        var kind := if IsShortcutName(c.name.value) then Shortcut else File;
        Some(ItemDescriptor(c.name.value, kind, 0))
      else None
    else if c.folder != Absent then
      if c.name.Some? then Some(ItemDescriptor(c.name.value, Folder, 0)) else None
    else None
  }

  /** The result array of the loop over the drained children. */
  function AssembleListing(children: seq<DriveItem>): seq<ItemDescriptor> {
    FilterMap(children, ListingEntry)
  }

  /** The listing is an order-preserving selection of the children: entry
      `k` describes child `idx[k]`, the positions ascend, every child with
      a name and a facet is listed, and no entry counts any children. */
  lemma ListingIsOrderedSelection(children: seq<DriveItem>)
    ensures var r, idx := AssembleListing(children), Hits(children, ListingEntry);
      && |r| <= |children|
      && |idx| == |r|
      && StrictlyIncreasing(idx)
      && (forall k :: 0 <= k < |r| ==> idx[k] < |children| && ListingEntry(children[idx[k]]) == Some(r[k]))
      && (forall i :: 0 <= i < |children| && children[i].name.Some? && (children[i].file != Absent || children[i].folder != Absent)
            ==> i in idx)
      && (forall k :: 0 <= k < |r| ==> r[k].childCount == 0)
  {
    var r, idx := AssembleListing(children), Hits(children, ListingEntry);
    FilterMapPicks(children, ListingEntry);
    forall k | 0 <= k < |r|
      ensures r[k].childCount == 0
    {
      assert ListingEntry(children[idx[k]]) == Some(r[k]);
    }
  }

  /** Only the exact lower-case suffix makes a shortcut: `X.URL` is a file. */
  lemma UpperCaseSuffixIsFile(id: Option<string>, folder: Facet)
    ensures ListingEntry(DriveItem(id, Some("X.URL"), Present, folder)) == Some(ItemDescriptor("X.URL", File, 0))
  {
    assert "X.URL"[1..] != ".url" by {
      assert "X.URL"[1..][1] == 'U';
    }
  }

  /** A child with both facets is listed by its `file` facet; an explicitly
      null `file` facet still counts as a file. */
  lemma FileFacetWins(id: Option<string>, name: string)
    requires !IsShortcutName(name)
    ensures ListingEntry(DriveItem(id, Some(name), Present, Present)) == Some(ItemDescriptor(name, File, 0))
    ensures ListingEntry(DriveItem(id, Some(name), Null, Present)) == Some(ItemDescriptor(name, File, 0))
  {
  }

  /** The folder `Music` holding `songA.mp3`, `songB.url` and the folder `Sub`. */
  lemma MusicFolderListing(a: Option<string>, b: Option<string>, c: Option<string>)
    ensures AssembleListing([
        DriveItem(a, Some("songA.mp3"), Present, Absent),
        DriveItem(b, Some("songB.url"), Present, Absent),
        DriveItem(c, Some("Sub"), Absent, Present)])
      == [ItemDescriptor("songA.mp3", File, 0),
          ItemDescriptor("songB.url", Shortcut, 0),
          ItemDescriptor("Sub", Folder, 0)]
  {
    var xs := [
        DriveItem(a, Some("songA.mp3"), Present, Absent),
        DriveItem(b, Some("songB.url"), Present, Absent),
        DriveItem(c, Some("Sub"), Absent, Present)];
    assert !IsShortcutName("songA.mp3") by {
      assert "songA.mp3"[5..][1] == 'm';
    }
    assert IsShortcutName("songB.url");
    var e0, e1, e2 := ItemDescriptor("songA.mp3", File, 0), ItemDescriptor("songB.url", Shortcut, 0),
      ItemDescriptor("Sub", Folder, 0);
    assert xs[..1][..0] == [];
    assert FilterMap(xs[..1], ListingEntry) == [e0];
    assert xs[..2][..1] == xs[..1];
    assert FilterMap(xs[..2], ListingEntry) == [e0, e1];
    assert xs[..3] == xs;
  }
}
