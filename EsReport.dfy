/** reports/es.go: the ElasticSearch-domain sheet of the usage report. The
    renderers of numbers, metrics and tags and the lookups of the user and
    of the domain reports are foreign: a report arrives with its fields
    already rendered, the lookups as their results. */
module EsReport {
  import opened Common
  import opened Strings
  import opened Spreadsheet

  const MissingAccountMessage: string := "Missing AWS Account for ElasticSearch Usage Report"

  /** The column names of the second header row. */
  const ColumnNames: seq<string> := [
    "Account", "ID", "Name", "Type", "Region", "Instances", "Cost",
    "Total (GigaBytes)", "Unused (MegaBytes)", "Average", "Peak", "Average", "Peak", "Tags"]

  /** The two header rows: the groups of columns, then one cell per column. */
  const EsDomainFormat: seq<seq<Cell>> := [
    [NewCell("", [7]), NewCell("Storage", [2]), NewCell("CPU (Percentage)", [2]),
     NewCell("Memory Pressure (Percentage)", [2]), NewCell("", [1])],
    ColumnRow(ColumnNames)
  ]

  /** One cell of width 1 per name. */
  function ColumnRow(names: seq<string>): (row: seq<Cell>)
    ensures |row| == |names|
    ensures forall i :: 0 <= i < |row| ==> row[i].value == names[i] && row[i].width == 1
  {
    if names == [] then [] else ColumnRow(names[..|names| - 1]) + [NewCell(names[|names| - 1], [])]
  }

  /** The number of columns of the second header row. */
  const Columns: nat := 14

  /** One domain report, its fields rendered as the sheet shows them. */
  datatype DomainReport = DomainReport(
    account: string,
    domainId: string,
    domainName: string,
    instanceType: string,
    region: string,
    instanceCount: string,
    cost: string,
    totalStorageSpace: string,
    freeSpace: string,
    cpuAverage: string,
    cpuPeak: string,
    memoryPressureAverage: string,
    memoryPressurePeak: string,
    tags: seq<string>)

  /** The sum of the widths of a row's cells. */
  function Width(row: seq<Cell>): int
  {
    if row == [] then 0 else Width(row[..|row| - 1]) + row[|row| - 1].width
  }

  /** Both header rows span the same 14 columns: the widths of the first add
      up to the number of cells of the second, and once converted to a sheet
      both rows have 14 cells. */
  lemma HeaderAligned()
    ensures Width(EsDomainFormat[0]) == Columns == |EsDomainFormat[1]|
    ensures |RowCells(EsDomainFormat[0])| == Columns == |RowCells(EsDomainFormat[1])|
  {
    var first := EsDomainFormat[0];
    var second := EsDomainFormat[1];
    assert first[..0] == [];
    WidthStep(first, 1);
    WidthStep(first, 2);
    WidthStep(first, 3);
    WidthStep(first, 4);
    WidthStep(first, 5);
    assert first[..5] == first;
    RowLength(first);
    RowLength(second);
    assert PadTotal(first[..4]) == 9;
    NoPadding(second[..13]);
  }

  lemma WidthStep(row: seq<Cell>, k: nat)
    requires 0 < k <= |row|
    ensures Width(row[..k]) == Width(row[..k - 1]) + row[k - 1].width
    ensures PadTotal(row[..k]) == PadTotal(row[..k - 1]) + PadWidth(row[k - 1])
  {
    assert row[..k][..k - 1] == row[..k - 1];
  }

  /** Cells of width 1 leave no blanks. */
  lemma {:induction false} NoPadding(cells: seq<Cell>)
    requires forall i :: 0 <= i < |cells| ==> cells[i].width == 1
    ensures PadTotal(cells) == 0
    decreases |cells|
  {
    if cells != [] {
      NoPadding(cells[..|cells| - 1]);
    }
  }

  /** `formatEsDomain`: the 14 cells of a domain's row, one per column of the
      second header row, the tags joined with ";". */
  function FormatEsDomain(report: DomainReport): (row: seq<Cell>)
    ensures |row| == |EsDomainFormat[1]|
    ensures forall i :: 0 <= i < |row| ==> row[i].width == 1
  {
    [NewCell(report.account, []), NewCell(report.domainId, []), NewCell(report.domainName, []),
     NewCell(report.instanceType, []), NewCell(report.region, []), NewCell(report.instanceCount, []),
     NewCell(report.cost, []), NewCell(report.totalStorageSpace, []), NewCell(report.freeSpace, []),
     NewCell(report.cpuAverage, []), NewCell(report.cpuPeak, []),
     NewCell(report.memoryPressureAverage, []), NewCell(report.memoryPressurePeak, []),
     NewCell(Join(report.tags, ";"), [])]
  }

  /** `getEsUsageReport`. The data always starts with the two header rows;
      without an account, or when a lookup fails, it is only those, with the
      error; otherwise one row per report follows, in report order.
      `accountCount` is the number of accounts asked for. */
  method GetEsUsageReport(accountCount: nat, user: Result<int>, reports: Result<seq<DomainReport>>)
    returns (data: seq<seq<Cell>>, err: Option<string>)
    ensures |data| >= 2 && data[..2] == EsDomainFormat
    ensures accountCount < 1 ==> data == EsDomainFormat && err == Some(MissingAccountMessage)
    ensures accountCount >= 1 && user.Err? ==> data == EsDomainFormat && err == Some(user.msg)
    ensures accountCount >= 1 && user.Ok? && reports.Err? ==> data == EsDomainFormat && err == Some(reports.msg)
    ensures accountCount >= 1 && user.Ok? && reports.Ok? ==>
              err.None? && |data| == 2 + |reports.value| &&
              forall i :: 0 <= i < |reports.value| ==> data[2 + i] == FormatEsDomain(reports.value[i])
  {
    data := [];
    var h := 0;
    while h < |EsDomainFormat|
      invariant 0 <= h <= |EsDomainFormat| && data == EsDomainFormat[..h]
    {
      data := data + [EsDomainFormat[h]];
      h := h + 1;
    }
    assert EsDomainFormat[..h] == EsDomainFormat;
    if accountCount < 1 {
      return data, Some(MissingAccountMessage);
    }
    if user.Err? {
      return data, Some(user.msg);
    }
    if reports.Err? {
      return data, Some(reports.msg);
    }
    var rs := reports.value;
    var i := 0;
    while i < |rs|
      invariant 0 <= i <= |rs| && |data| == 2 + i && data[..2] == EsDomainFormat
      invariant forall k :: 0 <= k < i ==> data[2 + k] == FormatEsDomain(rs[k])
    {
      var row := FormatEsDomain(rs[i]);
      data := data + [row];
      i := i + 1;
    }
    err := None;
  }
}
