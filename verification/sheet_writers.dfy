/**
 The two spreadsheet writers of the add-in pane. `WriteUrlsToSheet` lays the
 link entries out along the active row, one hyperlink per column starting
 at the active cell; `WriteFolderContentsToSheet` writes a bold, centred
 `Name` / `Type` / `Children` header at the active cell and one row per
 listing entry below it. Both first clear a region of a non-blank sheet.

 A sheet is a map from cell positions to the cells that hold something;
 a position outside the map is a blank, unformatted cell. Excel's range
 objects, `context.sync` and `autofitColumns` are left out: only where each
 value, hyperlink and format lands is modelled.
 */
module SheetWriters {
  import opened Js
  import opened DriveModel

  /** A zero-based cell position: `rowIndex`, `columnIndex`. */
  datatype Pos = Pos(row: int, col: int)

  datatype CellValue = Text(text: string) | Number(number: int)

  /** A cell's `hyperlink` property. */
  datatype Hyperlink = Hyperlink(address: string, textToDisplay: string)

  /** The two format properties the writers set. */
  datatype Format = Format(bold: bool, centered: bool)

  const Plain := Format(false, false)
  const Heading := Format(true, true)

  datatype Cell = Cell(value: CellValue, link: Option<Hyperlink>, format: Format)

  type Sheet = map<Pos, Cell>

  /** `getRangeByIndexes(top, left, rows, cols)`. */
  datatype Rect = Rect(top: int, left: int, rows: int, cols: int) {
    predicate Contains(p: Pos) {
      top <= p.row < top + rows && left <= p.col < left + cols
    }
  }

  /** `range.clear()`: values, hyperlinks and formats inside `rect` are gone. */
  function Cleared(sheet: Sheet, rect: Rect): Sheet {
    map p | p in sheet && !rect.Contains(p) :: sheet[p]
  }

  /** The format a cell has before a write: its own, or none for a blank cell. */
  function FormatAt(sheet: Sheet, p: Pos): Format {
    if p in sheet then sheet[p].format else Plain
  }

  /** The hyperlink a cell has before a write. */
  function LinkAt(sheet: Sheet, p: Pos): Option<Hyperlink> {
    if p in sheet then sheet[p].link else None
  }

  /** `s` differs from `base` at most inside `region`. */
  ghost predicate SameOutside(s: Sheet, base: Sheet, region: Rect) {
    forall p :: !region.Contains(p) ==> (p in s <==> p in base) && (p in s ==> s[p] == base[p])
  }

  /** No cell of `region` holds anything. */
  ghost predicate BlankIn(s: Sheet, region: Rect) {
    forall p :: region.Contains(p) ==> p !in s
  }

  // ---------------------------------------------------------------- links

  /** What the loop writes for link entry `item` into a cell of format `f`:
      the name as value and a hyperlink to the entry's URL showing the name.
      Setting values and a hyperlink keeps the cell's format. */
  function LinkCell(item: ItemLink, f: Format): Cell {
    Cell(Text(item.name), Some(Hyperlink(item.webUrl, item.name)), f)
  }

  /** Where link entry `i` goes: `i` columns right of the active cell. */
  function LinkPos(active: Pos, i: int): Pos {
    Pos(active.row, active.col + i)
  }

  /** The cells the link writer fills: the active row from the active
      column on, one per entry. */
  function LinkRun(active: Pos, count: nat): Rect {
    Rect(active.row, active.col, 1, count)
  }

  /** The region the link writer clears on a non-blank sheet: the active row
      from the column right of the active cell, `usedColumns - col + 1`
      columns wide. `usedColumns` is `usedRange.columnCount`, the width of
      the used range, which need not start in column A; `col` is the active
      cell's absolute `columnIndex`. */
  function LinkClearRect(active: Pos, usedColumns: nat): Rect {
    Rect(active.row, active.col + 1, 1, usedColumns - active.col + 1)
  }

  /** The clearing step as written. Excel rejects a range without columns,
      and the error aborts the whole `Excel.run` before anything is written. */
  function ClearForLinks(sheet: Sheet, active: Pos, usedColumns: nat): (r: Call<Sheet>)
    ensures r.Throws? <==> |sheet| > 0 && LinkClearRect(active, usedColumns).cols <= 0
    ensures r.Returns? && |sheet| > 0 ==> r.value == Cleared(sheet, LinkClearRect(active, usedColumns))
    ensures r.Returns? && |sheet| == 0 ==> r.value == sheet
  {
    if |sheet| == 0 then Returns(sheet)
    else
      var rect := LinkClearRect(active, usedColumns);
      if rect.cols <= 0 then Throws else Returns(Cleared(sheet, rect))
  }

  /** The clearing step with nothing to clear skipped. */
  function ClearForLinksChecked(sheet: Sheet, active: Pos, usedColumns: nat): (r: Sheet)
    ensures var rect := LinkClearRect(active, usedColumns);
      && (|sheet| > 0 && rect.cols > 0 ==> r == Cleared(sheet, rect))
      && (|sheet| == 0 || rect.cols <= 0 ==> r == sheet)
    ensures ClearForLinks(sheet, active, usedColumns).Returns? ==> r == ClearForLinks(sheet, active, usedColumns).value
  {
    var rect := LinkClearRect(active, usedColumns);
    if |sheet| > 0 && rect.cols > 0 then Cleared(sheet, rect) else sheet
  }

  /** The loop `for (i = 0; i < items.length; i++)` over `range.getCell(0, i)`:
      entry `i` lands `i` columns right of the active cell, in order, with
      none skipped, and nothing else changes. */
  method WriteLinkRow(base: Sheet, active: Pos, items: seq<ItemLink>) returns (s: Sheet)
    ensures forall i :: 0 <= i < |items| ==>
      LinkPos(active, i) in s && s[LinkPos(active, i)] == LinkCell(items[i], FormatAt(base, LinkPos(active, i)))
    ensures SameOutside(s, base, LinkRun(active, |items|))
  {
    s := base;
    var i := 0;
    while i < |items|
      invariant 0 <= i <= |items|
      invariant forall j :: 0 <= j < i ==>
        LinkPos(active, j) in s && s[LinkPos(active, j)] == LinkCell(items[j], FormatAt(base, LinkPos(active, j)))
      invariant SameOutside(s, base, LinkRun(active, i))
    {
      var p := LinkPos(active, i);
      assert !LinkRun(active, i).Contains(p);
      assert FormatAt(s, p) == FormatAt(base, p);
      var s' := s[p := LinkCell(items[i], FormatAt(s, p))];
      forall q | !LinkRun(active, i + 1).Contains(q)
        ensures (q in s' <==> q in base) && (q in s' ==> s'[q] == base[q])
      {
        assert q != p;
        assert !LinkRun(active, i).Contains(q);
      }
      forall j | 0 <= j < i
        ensures LinkPos(active, j) in s' && s'[LinkPos(active, j)] == LinkCell(items[j], FormatAt(base, LinkPos(active, j)))
      {
        assert LinkPos(active, j) != p;
      }
      s := s';
      i := i + 1;
    }
  }

  /** `WriteUrlsToSheet(items)` as written, called with at least one entry
      as both callers ensure. It fails exactly when the sheet is not blank and
      `columnIndex >= usedRange.columnCount + 1`, which an active cell inside
      a used range that starts right of column A can meet too. */
  method WriteUrlsToSheet(sheet: Sheet, active: Pos, usedColumns: nat, items: seq<ItemLink>) returns (r: Call<Sheet>)
    requires |items| > 0
    ensures r.Throws? <==> |sheet| > 0 && active.col >= usedColumns + 1
    ensures r.Returns? ==> forall i :: 0 <= i < |items| ==>
      LinkPos(active, i) in r.value && r.value[LinkPos(active, i)].value == Text(items[i].name)
      && r.value[LinkPos(active, i)].link == Some(Hyperlink(items[i].webUrl, items[i].name))
    ensures r.Returns? && |sheet| == 0 ==> SameOutside(r.value, sheet, LinkRun(active, |items|))
    ensures r.Returns? && |sheet| > 0 ==>
      SameOutside(r.value, Cleared(sheet, LinkClearRect(active, usedColumns)), LinkRun(active, |items|))
  {
    var cleared := ClearForLinks(sheet, active, usedColumns);
    if cleared.Throws? {
      return Throws;
    }
    var s := WriteLinkRow(cleared.value, active, items);
    return Returns(s);
  }

  /** `WriteUrlsToSheet` with the empty clear skipped: every entry is
      written wherever the active cell is. */
  method WriteUrlsToSheetChecked(sheet: Sheet, active: Pos, usedColumns: nat, items: seq<ItemLink>) returns (s: Sheet)
    requires |items| > 0
    ensures forall i :: 0 <= i < |items| ==>
      LinkPos(active, i) in s && s[LinkPos(active, i)].value == Text(items[i].name)
      && s[LinkPos(active, i)].link == Some(Hyperlink(items[i].webUrl, items[i].name))
    ensures SameOutside(s, ClearForLinksChecked(sheet, active, usedColumns), LinkRun(active, |items|))
  {
    s := WriteLinkRow(ClearForLinksChecked(sheet, active, usedColumns), active, items);
  }

  /** An active cell whose column index is one more than the used range's
      width makes the clear width zero: the links are never written. */
  lemma ClearWidthZeroAborts(sheet: Sheet, active: Pos, usedColumns: nat)
    requires |sheet| > 0 && active.col == usedColumns + 1
    ensures LinkClearRect(active, usedColumns).cols == 0
    ensures ClearForLinks(sheet, active, usedColumns).Throws?
    ensures ClearForLinksChecked(sheet, active, usedColumns) == sheet
  {
  }

  /** The used range E1:F9 is two columns wide; with the active cell at E5
      (column index 4), inside that range, the clear width is -1 and the
      links are never written. */
  lemma ActiveInsideShiftedRangeAborts(sheet: Sheet, row: int)
    requires |sheet| > 0
    ensures LinkClearRect(Pos(row, 4), 2).cols == -1
    ensures ClearForLinks(sheet, Pos(row, 4), 2).Throws?
  {
  }

  // -------------------------------------------------------------- listing

  const ListingColumns := 3

  /** The header texts of the three listing columns. */
  function HeaderText(k: int): string {
    if k == 0 then "Name" else if k == 1 then "Type" else "Children"
  }

  /** The value entry `item` puts in listing column `k`. */
  function ListingValue(item: ItemDescriptor, k: int): CellValue {
    if k == 0 then Text(item.name) else if k == 1 then Text(item.kind.Label()) else Number(item.childCount)
  }

  /** The region the listing writer clears on a non-blank sheet: from the
      active cell, `items.length + 2` rows by 3 columns. */
  function ListingClearRect(active: Pos, count: nat): Rect {
    Rect(active.row, active.col, count + 2, ListingColumns)
  }

  /** The cells the listing writer fills: the header row and one row per entry. */
  function ListingBlock(active: Pos, count: nat): Rect {
    Rect(active.row, active.col, count + 1, ListingColumns)
  }

  /** Where header `k` goes: `k` columns right of the active cell. */
  function HeaderPos(active: Pos, k: int): Pos {
    Pos(active.row, active.col + k)
  }

  /** Where column `k` of entry `i` goes: `i + 1` rows below and `k`
      columns right of the active cell. */
  function ItemPos(active: Pos, i: int, k: int): Pos {
    Pos(active.row + i + 1, active.col + k)
  }

  /** Setting `values` of one cell: its hyperlink and format stay. */
  function WithValue(s: Sheet, p: Pos, v: CellValue): Sheet {
    s[p := Cell(v, LinkAt(s, p), FormatAt(s, p))]
  }

  /** Setting `values`, bold and centred alignment of one header cell. */
  function WithHeading(s: Sheet, p: Pos, text: string): Sheet {
    s[p := Cell(Text(text), LinkAt(s, p), Heading)]
  }

  /** The header row and the loop over `range.getCell(i + 1, k)`. Written into
      a region already blank, every cell carries just its value, and the
      header cells are bold and centred. */
  method WriteListingBlock(base: Sheet, active: Pos, items: seq<ItemDescriptor>) returns (s: Sheet)
    requires BlankIn(base, ListingBlock(active, |items|))
    ensures forall k :: 0 <= k < ListingColumns ==>
      HeaderPos(active, k) in s && s[HeaderPos(active, k)] == Cell(Text(HeaderText(k)), None, Heading)
    ensures forall i, k :: 0 <= i < |items| && 0 <= k < ListingColumns ==>
      ItemPos(active, i, k) in s && s[ItemPos(active, i, k)] == Cell(ListingValue(items[i], k), None, Plain)
    ensures SameOutside(s, base, ListingBlock(active, |items|))
  {
    s := WriteHeaders(base, active, items);
    var i := 0;
    while i < |items|
      invariant 0 <= i <= |items|
      invariant forall k :: 0 <= k < ListingColumns ==>
        HeaderPos(active, k) in s && s[HeaderPos(active, k)] == Cell(Text(HeaderText(k)), None, Heading)
      invariant forall j, k :: 0 <= j < i && 0 <= k < ListingColumns ==>
        ItemPos(active, j, k) in s && s[ItemPos(active, j, k)] == Cell(ListingValue(items[j], k), None, Plain)
      invariant SameOutside(s, base, ListingBlock(active, i))
    {
      var s' := WriteListingRow(s, base, active, items, i);
      RowKeepsAbove(s, s', active, items, i);
      s := s';
      i := i + 1;
    }
  }

  /** The three bold, centred header cells at the active row. */
  method WriteHeaders(base: Sheet, active: Pos, items: seq<ItemDescriptor>) returns (s: Sheet)
    requires BlankIn(base, ListingBlock(active, |items|))
    ensures forall k :: 0 <= k < ListingColumns ==>
      HeaderPos(active, k) in s && s[HeaderPos(active, k)] == Cell(Text(HeaderText(k)), None, Heading)
    ensures SameOutside(s, base, ListingBlock(active, 0))
  {
    assert ListingBlock(active, |items|).Contains(HeaderPos(active, 0));
    assert ListingBlock(active, |items|).Contains(HeaderPos(active, 1));
    assert ListingBlock(active, |items|).Contains(HeaderPos(active, 2));
    s := WithHeading(base, HeaderPos(active, 0), "Name");
    s := WithHeading(s, HeaderPos(active, 1), "Type");
    s := WithHeading(s, HeaderPos(active, 2), "Children");
  }

  /** One iteration of the listing loop: the three cells of entry `i`. */
  method WriteListingRow(s: Sheet, base: Sheet, active: Pos, items: seq<ItemDescriptor>, i: nat) returns (s': Sheet)
    requires i < |items|
    requires BlankIn(base, ListingBlock(active, |items|))
    requires SameOutside(s, base, ListingBlock(active, i))
    ensures forall k :: 0 <= k < ListingColumns ==>
      ItemPos(active, i, k) in s' && s'[ItemPos(active, i, k)] == Cell(ListingValue(items[i], k), None, Plain)
    ensures forall p :: p != ItemPos(active, i, 0) && p != ItemPos(active, i, 1) && p != ItemPos(active, i, 2) ==>
      (p in s' <==> p in s) && (p in s' ==> s'[p] == s[p])
    ensures forall p: Pos :: p.row != ItemPos(active, i, 0).row ==> (p in s' <==> p in s) && (p in s' ==> s'[p] == s[p])
    ensures SameOutside(s', base, ListingBlock(active, i + 1))
  {
    var p0, p1, p2 := ItemPos(active, i, 0), ItemPos(active, i, 1), ItemPos(active, i, 2);
    RowCellsBlank(s, base, active, |items|, i);
    s' := WithValue(s, p0, Text(items[i].name));
    s' := WithValue(s', p1, Text(items[i].kind.Label()));
    s' := WithValue(s', p2, Number(items[i].childCount));
    assert s'[p0] == Cell(ListingValue(items[i], 0), None, Plain);
    assert s'[p1] == Cell(ListingValue(items[i], 1), None, Plain);
    assert s'[p2] == Cell(ListingValue(items[i], 2), None, Plain);
    RowFrame(s, s', base, active, i);
  }

  /** Writing the row of entry `i` keeps the header and the rows above it. */
  lemma RowKeepsAbove(s: Sheet, s': Sheet, active: Pos, items: seq<ItemDescriptor>, i: nat)
    requires i < |items|
    requires forall k :: 0 <= k < ListingColumns ==>
      HeaderPos(active, k) in s && s[HeaderPos(active, k)] == Cell(Text(HeaderText(k)), None, Heading)
    requires forall j, k :: 0 <= j < i && 0 <= k < ListingColumns ==>
      ItemPos(active, j, k) in s && s[ItemPos(active, j, k)] == Cell(ListingValue(items[j], k), None, Plain)
    requires forall k :: 0 <= k < ListingColumns ==>
      ItemPos(active, i, k) in s' && s'[ItemPos(active, i, k)] == Cell(ListingValue(items[i], k), None, Plain)
    requires forall p: Pos :: p.row != ItemPos(active, i, 0).row ==> (p in s' <==> p in s) && (p in s' ==> s'[p] == s[p])
    ensures forall k :: 0 <= k < ListingColumns ==>
      HeaderPos(active, k) in s' && s'[HeaderPos(active, k)] == Cell(Text(HeaderText(k)), None, Heading)
    ensures forall j, k :: 0 <= j < i + 1 && 0 <= k < ListingColumns ==>
      ItemPos(active, j, k) in s' && s'[ItemPos(active, j, k)] == Cell(ListingValue(items[j], k), None, Plain)
  {
    forall k | 0 <= k < ListingColumns
      ensures HeaderPos(active, k) in s' && s'[HeaderPos(active, k)] == Cell(Text(HeaderText(k)), None, Heading)
    {
      assert HeaderPos(active, k).row != ItemPos(active, i, 0).row;
    }
    forall j, k | 0 <= j < i && 0 <= k < ListingColumns
      ensures ItemPos(active, j, k) in s' && s'[ItemPos(active, j, k)] == Cell(ListingValue(items[j], k), None, Plain)
    {
      assert ItemPos(active, j, k).row != ItemPos(active, i, 0).row;
    }
  }

  /** Before entry `i` is written, its row of the block is still blank. */
  lemma RowCellsBlank(s: Sheet, base: Sheet, active: Pos, count: nat, i: nat)
    requires i < count
    requires BlankIn(base, ListingBlock(active, count))
    requires SameOutside(s, base, ListingBlock(active, i))
    ensures forall k :: 0 <= k < ListingColumns ==> ItemPos(active, i, k) !in s
  {
    forall k | 0 <= k < ListingColumns
      ensures ItemPos(active, i, k) !in s
    {
      var p := ItemPos(active, i, k);
      assert !ListingBlock(active, i).Contains(p) && ListingBlock(active, count).Contains(p);
    }
  }

  /** Changing only the cells of row `i + 1` keeps the frame of the block grown by one row. */
  lemma RowFrame(s: Sheet, s': Sheet, base: Sheet, active: Pos, i: nat)
    requires SameOutside(s, base, ListingBlock(active, i))
    requires forall p :: p != ItemPos(active, i, 0) && p != ItemPos(active, i, 1) && p != ItemPos(active, i, 2) ==>
      (p in s' <==> p in s) && (p in s' ==> s'[p] == s[p])
    ensures SameOutside(s', base, ListingBlock(active, i + 1))
  {
    forall q | !ListingBlock(active, i + 1).Contains(q)
      ensures (q in s' <==> q in base) && (q in s' ==> s'[q] == base[q])
    {
      assert q != ItemPos(active, i, 0) && q != ItemPos(active, i, 1) && q != ItemPos(active, i, 2);
      assert !ListingBlock(active, i).Contains(q);
    }
  }

  /** `WriteFolderContentsToSheet(items)`, called with at least one entry as
      its caller ensures: header at the active cell, entry `i` in the row
      `i + 1` below it, all inside the cleared region, whose last row is left
      blank; nothing outside the cleared region changes. */
  method WriteFolderContentsToSheet(sheet: Sheet, active: Pos, items: seq<ItemDescriptor>) returns (s: Sheet)
    requires |items| > 0
    ensures forall k :: 0 <= k < ListingColumns ==>
      HeaderPos(active, k) in s && s[HeaderPos(active, k)] == Cell(Text(HeaderText(k)), None, Heading)
    ensures forall i, k :: 0 <= i < |items| && 0 <= k < ListingColumns ==>
      ItemPos(active, i, k) in s && s[ItemPos(active, i, k)] == Cell(ListingValue(items[i], k), None, Plain)
    ensures BlankIn(s, Rect(active.row + |items| + 1, active.col, 1, ListingColumns))
    ensures SameOutside(s, sheet, ListingClearRect(active, |items|))
  {
    var clear := ListingClearRect(active, |items|);
    var base := if |sheet| > 0 then Cleared(sheet, clear) else sheet;
    assert BlankIn(base, clear);
    s := WriteListingBlock(base, active, items);
    forall p | Rect(active.row + |items| + 1, active.col, 1, ListingColumns).Contains(p)
      ensures p !in s
    {
      assert clear.Contains(p) && !ListingBlock(active, |items|).Contains(p);
    }
    forall p | !clear.Contains(p)
      ensures (p in s <==> p in sheet) && (p in s ==> s[p] == sheet[p])
    {
      assert !ListingBlock(active, |items|).Contains(p);
    }
  }
}
