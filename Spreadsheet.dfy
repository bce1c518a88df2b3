/** reports/spreadsheet.go: turning the report tables into spreadsheet
    sheets. A cell of width w > 1 is merged over the w - 1 cells to its
    right, which are added as blank cells before the next cell of the row.
    Styles are not modelled; appending a sheet to the file is foreign and
    its outcome is a parameter. */
module Spreadsheet {
  import opened Common

  /** A cell of a report table: its text and how many columns it spans. */
  datatype Cell = Cell(value: string, width: int)

  /** A table with its sheet name, row by row. */
  datatype RawSheet = RawSheet(name: string, data: seq<seq<Cell>>)

  /** A spreadsheet cell: its text and how many cells to its right it is
      merged with. */
  datatype SheetCell = SheetCell(value: string, hMerge: int)

  datatype Sheet = Sheet(name: string, rows: seq<seq<SheetCell>>)

  /** `newCell(value, dimensions...)`: a cell of the given width, 1 by
      default; in the sheet it is merged with `width - 1` cells to its right,
      and with none when it spans one column or less. */
  function NewCell(value: string, dimensions: seq<int>): (c: Cell)
    ensures c.value == value
    ensures |dimensions| > 0 ==> c.width == dimensions[0]
    ensures |dimensions| == 0 ==> c.width == 1
    ensures Placed(c) == SheetCell(value, if |dimensions| > 0 && dimensions[0] > 1 then dimensions[0] - 1 else 0)
  {
    Cell(value, if |dimensions| > 0 then dimensions[0] else 1)
  }

  /** The blank cells a cell of this width leaves to its right. */
  function PadWidth(c: Cell): nat
  {
    if c.width > 1 then c.width - 1 else 0
  }

  /** The spreadsheet cell holding a table cell's text. */
  function Placed(c: Cell): SheetCell
  {
    SheetCell(c.value, PadWidth(c))
  }

  function Blanks(n: nat): seq<SheetCell>
  {
    seq(n, _ => SheetCell("", 0))
  }

  /** The cells of one row: each table cell, preceded by the blanks the cell
      before it leaves. The blanks of the last cell are never added. */
  function RowCells(raw: seq<Cell>): seq<SheetCell>
  {
    if raw == [] then []
    else
      var prefix := raw[..|raw| - 1];
      RowCells(prefix) + (if prefix == [] then [] else Blanks(PadWidth(prefix[|prefix| - 1]))) + [Placed(raw[|raw| - 1])]
  }

  /** Where table cell `i` lands: after `i` cells and the blanks of the cells
      before it. */
  function Offset(raw: seq<Cell>, i: nat): nat
    requires i <= |raw|
  {
    i + PadTotal(raw[..i])
  }

  /** The blanks all of these cells leave. */
  function PadTotal(cells: seq<Cell>): nat
  {
    if cells == [] then 0 else PadTotal(cells[..|cells| - 1]) + PadWidth(cells[|cells| - 1])
  }

  /** A row has one cell per table cell plus the blanks of every cell but the
      last, and table cell `i` sits at its offset with its text and merge. */
  lemma RowCellsLayout(raw: seq<Cell>)
    requires raw != []
    ensures |RowCells(raw)| == Offset(raw, |raw| - 1) + 1
    ensures forall i :: 0 <= i < |raw| ==>
              Offset(raw, i) < |RowCells(raw)| && RowCells(raw)[Offset(raw, i)] == Placed(raw[i])
  {
    RowLength(raw);
    forall i | 0 <= i < |raw|
      ensures Offset(raw, i) < |RowCells(raw)| && RowCells(raw)[Offset(raw, i)] == Placed(raw[i])
    {
      PlacedAt(raw, i);
    }
  }

  lemma {:induction false} RowLength(raw: seq<Cell>)
    requires raw != []
    ensures |RowCells(raw)| == Offset(raw, |raw| - 1) + 1
    decreases |raw|
  {
    var n := |raw| - 1;
    if n == 0 {
      assert raw[..0] == [];
    } else {
      var prefix := raw[..n];
      RowLength(prefix);
      OffsetAgrees(raw, n, n - 1);
      OffsetStep(raw, n - 1);
      assert prefix[n - 1] == raw[n - 1];
      var pad := Blanks(PadWidth(raw[n - 1]));
      assert RowCells(raw) == RowCells(prefix) + pad + [Placed(raw[n])];
      assert |pad| == PadWidth(raw[n - 1]);
    }
  }

  lemma {:induction false} PlacedAt(raw: seq<Cell>, i: nat)
    requires i < |raw|
    ensures Offset(raw, i) < |RowCells(raw)| && RowCells(raw)[Offset(raw, i)] == Placed(raw[i])
    decreases |raw|
  {
    var n := |raw| - 1;
    RowLength(raw);
    if i < n {
      var prefix := raw[..n];
      PlacedAt(prefix, i);
      OffsetAgrees(raw, n, i);
      assert prefix[i] == raw[i];
      var head := RowCells(prefix);
      var pad := if prefix == [] then [] else Blanks(PadWidth(prefix[|prefix| - 1]));
      assert RowCells(raw) == head + pad + [Placed(raw[n])];
      assert (head + pad + [Placed(raw[n])])[Offset(prefix, i)] == head[Offset(prefix, i)];
    }
  }

  lemma OffsetStep(raw: seq<Cell>, i: nat)
    requires i < |raw|
    ensures Offset(raw, i + 1) == Offset(raw, i) + 1 + PadWidth(raw[i])
  {
    assert raw[..i + 1][..i] == raw[..i];
  }

  /** Offsets in a prefix are the offsets in the whole row. */
  lemma OffsetAgrees(raw: seq<Cell>, n: nat, i: nat)
    requires i <= n <= |raw|
    ensures Offset(raw[..n], i) == Offset(raw, i)
  {
    assert raw[..n][..i] == raw[..i];
  }

  /** The loop over one row: before each cell, the blanks the previous cell
      left; then the cell, remembering its own blanks. */
  method ConvertRow(rawRow: seq<Cell>) returns (row: seq<SheetCell>)
    ensures row == RowCells(rawRow)
  {
    row := [];
    var horizontalPadding := 0;
    var j := 0;
    while j < |rawRow|
      invariant 0 <= j <= |rawRow|
      invariant horizontalPadding == (if j == 0 then 0 else PadWidth(rawRow[j - 1]))
      invariant row == RowCells(rawRow[..j])
    {
      assert rawRow[..j + 1][..j] == rawRow[..j];
      var padded := row;
      while horizontalPadding > 0
        invariant 0 <= horizontalPadding <= (if j == 0 then 0 else PadWidth(rawRow[j - 1]))
        invariant row == padded + Blanks((if j == 0 then 0 else PadWidth(rawRow[j - 1])) - horizontalPadding)
      {
        row := row + [SheetCell("", 0)];
        horizontalPadding := horizontalPadding - 1;
      }
      var rawCell := rawRow[j];
      var newCell := SheetCell(rawCell.value, 0);
      if rawCell.width > 1 {
        rawCell := rawCell.(width := rawCell.width - 1);
        newCell := newCell.(hMerge := rawCell.width);
        horizontalPadding := rawCell.width;
      }
      row := row + [newCell];
      j := j + 1;
    }
    assert rawRow[..j] == rawRow;
  }

  /** The sheet a table converts to: its name, and one row per table row,
      laid out by `RowCells`. */
  predicate ConvertedFrom(sheet: Sheet, raw: RawSheet)
  {
    && sheet.name == raw.name
    && |sheet.rows| == |raw.data|
    && forall i :: 0 <= i < |raw.data| ==> sheet.rows[i] == RowCells(raw.data[i])
  }

  /** `convertToSheet`: one sheet row per table row, in order. */
  method ConvertToSheet(raw: RawSheet) returns (sheet: Sheet)
    ensures sheet.name == raw.name
    ensures |sheet.rows| == |raw.data|
    ensures forall i :: 0 <= i < |raw.data| ==> sheet.rows[i] == RowCells(raw.data[i])
  {
    sheet := Sheet(raw.name, []);
    var i := 0;
    while i < |raw.data|
      invariant 0 <= i <= |raw.data| && sheet.name == raw.name && |sheet.rows| == i
      invariant forall k :: 0 <= k < i ==> sheet.rows[k] == RowCells(raw.data[k])
    {
      var row := ConvertRow(raw.data[i]);
      sheet := sheet.(rows := sheet.rows + [row]);
      i := i + 1;
    }
  }

  /** The errors of the failed appends, by sheet name; a later failure of a
      sheet with the same name replaces an earlier one. */
  function AppendErrors(sheets: seq<RawSheet>, appended: seq<Option<string>>): map<string, string>
    requires |appended| == |sheets|
  {
    if sheets == [] then map[]
    else
      var n := |sheets| - 1;
      var before := AppendErrors(sheets[..n], appended[..n]);
      if appended[n].Some? then before[sheets[n].name := appended[n].value] else before
  }

  /** The tables whose sheets the file holds: those whose append
      succeeded, in order. */
  function AppendedSheets(sheets: seq<RawSheet>, appended: seq<Option<string>>): seq<RawSheet>
    requires |appended| == |sheets|
  {
    if sheets == [] then []
    else
      var n := |sheets| - 1;
      AppendedSheets(sheets[..n], appended[..n]) + (if appended[n].None? then [sheets[n]] else [])
  }

  /** The error map names exactly the sheets whose append failed. */
  lemma {:induction false} ErrorKeysAreFailures(sheets: seq<RawSheet>, appended: seq<Option<string>>)
    requires |appended| == |sheets|
    ensures forall name :: name in AppendErrors(sheets, appended) <==>
              exists i :: 0 <= i < |sheets| && sheets[i].name == name && appended[i].Some?
    decreases |sheets|
  {
    if sheets != [] {
      var n := |sheets| - 1;
      ErrorKeysAreFailures(sheets[..n], appended[..n]);
      assert forall i :: 0 <= i < n ==> sheets[..n][i] == sheets[i] && appended[..n][i] == appended[i];
    }
  }

  /** `generateSpreadsheet`: every sheet is converted and appended, whatever
      happened to the ones before. `appended[i]` is the outcome of appending
      sheet `i`: `None` on success, the error otherwise. */
  method GenerateSpreadsheet(sheets: seq<RawSheet>, appended: seq<Option<string>>)
    returns (file: seq<Sheet>, errors: map<string, string>)
    requires |appended| == |sheets|
    ensures errors == AppendErrors(sheets, appended)
    ensures |file| == |AppendedSheets(sheets, appended)|
    ensures forall i :: 0 <= i < |file| ==> ConvertedFrom(file[i], AppendedSheets(sheets, appended)[i])
  {
    file := [];
    errors := map[];
    var i := 0;
    while i < |sheets|
      invariant 0 <= i <= |sheets|
      invariant errors == AppendErrors(sheets[..i], appended[..i])
      invariant |file| == |AppendedSheets(sheets[..i], appended[..i])|
      invariant forall k :: 0 <= k < |file| ==> ConvertedFrom(file[k], AppendedSheets(sheets[..i], appended[..i])[k])
    {
      assert sheets[..i + 1][..i] == sheets[..i] && appended[..i + 1][..i] == appended[..i];
      var rawSheet := sheets[i];
      var sheet := ConvertToSheet(rawSheet);
      assert ConvertedFrom(sheet, rawSheet);
      if appended[i].Some? {
        errors := errors[rawSheet.name := appended[i].value];
      } else {
        file := file + [sheet];
      }
      i := i + 1;
    }
    assert sheets[..i] == sheets && appended[..i] == appended;
  }
}
