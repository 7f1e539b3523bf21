/**
 * The two sample-sheet parsers. A sheet is given as its lines; each parser
 * turns it into the list of sample dictionaries, in file order.
 *
 *   parse_samplesheet_miseq    the [Data] table: the line after the marker is
 *                              the header, lower-cased; every later line that
 *                              is not all empty fields is a sample
 *   parse_samplesheet_nextseq  the [Cloud_Data] table: lines up to
 *                              [Cloud_Settings] or a blank line; the first is
 *                              the header, converted by camel_to_snake
 */
module SampleSheet {
  import opened Results
  import opened Text
  import opened CaseConvert
  import opened Seqs

  /** A sample as a dictionary from column name to cell text. */
  type Record = map<string, string>

  /**
   * One sample dictionary. It is an object because the MiSeq field check
   * writes into it, and the filters hand on the same objects.
   */
  class Sample {
    var fields: Record

    constructor (fields: Record)
      ensures this.fields == fields
    {
      this.fields := fields;
    }
  }

  /** The dictionaries the samples currently hold, in order. */
  ghost function Fields(samples: seq<Sample>): (r: seq<Record>)
    reads samples
    ensures |r| == |samples|
    ensures forall i :: 0 <= i < |r| ==> r[i] == samples[i].fields
  {
    if samples == [] then [] else Fields(samples[..|samples| - 1]) + [samples[|samples| - 1].fields]
  }

  /** No sample object appears twice. */
  predicate Distinct(samples: seq<Sample>) {
    forall i, j :: 0 <= i < j < |samples| ==> samples[i] != samples[j]
  }

  /** The line, stripped, starts with marker. */
  predicate IsMarkerLine(line: string, marker: string) {
    StartsWith(Strip(line), marker)
  }

  /** Index of the first line whose stripped text starts with marker, or |lines| if none does. */
  function MarkerIndex(lines: seq<string>, marker: string): (k: nat)
    ensures k <= |lines|
  {
    if lines == [] then 0
    else if IsMarkerLine(lines[0], marker) then 0
    else 1 + MarkerIndex(lines[1..], marker)
  }

  /** MarkerIndex finds the first marker line. */
  lemma {:induction false} MarkerIndexFirst(lines: seq<string>, marker: string)
    ensures var k := MarkerIndex(lines, marker);
      (k < |lines| ==> IsMarkerLine(lines[k], marker))
      && forall j :: 0 <= j < k ==> !IsMarkerLine(lines[j], marker)
  {
    if lines != [] && !IsMarkerLine(lines[0], marker) {
      MarkerIndexFirst(lines[1..], marker);
      var k := MarkerIndex(lines[1..], marker);
      assert forall j :: 1 <= j < 1 + k ==> lines[j] == lines[1..][j - 1];
    }
  }

  /** line.strip().split(',') */
  function Cells(line: string): seq<string> {
    Split(Strip(line), ',')
  }

  /** A row made only of empty fields, such as "" or ",,,". */
  predicate IsBlankRow(line: string) {
    AllEmpty(Cells(line))
  }

  /** A row that yields a dictionary. */
  predicate IsDataRow(line: string) {
    !IsBlankRow(line)
  }

  // ---------------------------------------------------------------- [Data]

  /** [x.lower() for x in names] */
  function LowerAll(names: seq<string>): (r: seq<string>)
    ensures |r| == |names|
  {
    if names == [] then [] else [Lower(names[0])] + LowerAll(names[1..])
  }

  /** The [Data] header: the names of the header line, lower-cased. */
  function DataHeader(line: string): seq<string> {
    LowerAll(Cells(line))
  }

  /** keys[i] := vals[i] for i = 0 .. n-1 in turn, starting from an empty dictionary. */
  function AssignPairs(keys: seq<string>, vals: seq<string>, n: nat): Record
    requires n <= |keys| && n <= |vals|
  {
    if n == 0 then map[] else AssignPairs(keys, vals, n - 1)[keys[n - 1] := vals[n - 1]]
  }

  function Min(a: nat, b: nat): nat { if a <= b then a else b }

  /**
   * The dictionary for one [Data] row: cell i goes under header[i]; cells
   * beyond the header are dropped (the IndexError is caught).
   */
  function DataRecord(header: seq<string>, cells: seq<string>): Record {
    AssignPairs(header, cells, Min(|header|, |cells|))
  }

  /** The dictionary a [Data] row gives. */
  function DataRowRecord(header: seq<string>, row: string): Record {
    DataRecord(header, Cells(row))
  }

  /** The dictionaries of the [Data] table below its header line. */
  function DataTable(header: string, rows: seq<string>): seq<Record> {
    KeepMap(rows, IsDataRow, DataRowRecord, DataHeader(header))
  }

  /**
   * parse_samplesheet_miseq. next(f) after the marker raises StopIteration
   * when no line follows: when there is no marker at all, or it is the last line.
   */
  function ParseMiSeqSheet(lines: seq<string>): Result<seq<Record>> {
    var m := MarkerIndex(lines, "[Data]");
    if m + 1 < |lines| then Ok(DataTable(lines[m + 1], lines[m + 2..])) else Err(StopIteration)
  }

  // ---------------------------------------------------------- [Cloud_Data]

  /** Where collection of [Cloud_Data] lines stops. */
  predicate EndsCloudSection(line: string) {
    StartsWith(Strip(line), "[Cloud_Settings]") || RStripChar(Strip(line), ',') == ""
  }

  /** line.strip().rstrip(',') */
  function CloudLine(line: string): string {
    RStripChar(Strip(line), ',')
  }

  /**
   * The lines collected after [Cloud_Data]: each line cleaned, up to the
   * first line that ends the section.
   */
  function CloudSection(lines: seq<string>): (collected: seq<string>)
    ensures |collected| <= |lines|
  {
    if lines == [] || EndsCloudSection(lines[0]) then []
    else [CloudLine(lines[0])] + CloudSection(lines[1..])
  }

  /** Collected line i is line i cleaned, and line i does not end the section. */
  lemma {:induction false} CloudSectionAt(lines: seq<string>, i: nat)
    requires i < |CloudSection(lines)|
    ensures CloudSection(lines)[i] == CloudLine(lines[i]) && !EndsCloudSection(lines[i])
    decreases i
  {
    assert lines != [] && !EndsCloudSection(lines[0]);
    CloudSectionStep(lines);
    if i > 0 {
      CloudSectionAt(lines[1..], i - 1);
      assert lines[1..][i - 1] == lines[i];
    }
  }

  /** Collection stops at a line that ends the section, or at the end of the lines. */
  lemma {:induction false} CloudSectionEnd(lines: seq<string>)
    ensures |CloudSection(lines)| < |lines| ==> EndsCloudSection(lines[|CloudSection(lines)|])
    decreases |lines|
  {
    if lines != [] && !EndsCloudSection(lines[0]) {
      CloudSectionEnd(lines[1..]);
    }
  }

  /** A line that does not end the section is collected, cleaned, before the rest. */
  lemma CloudSectionStep(lines: seq<string>)
    requires lines != [] && !EndsCloudSection(lines[0])
    ensures CloudSection(lines) == [CloudLine(lines[0])] + CloudSection(lines[1..])
  {
  }

  /** Collection stops at the end of the lines or at a line that ends the section. */
  lemma CloudSectionStop(lines: seq<string>)
    requires lines == [] || EndsCloudSection(lines[0])
    ensures CloudSection(lines) == []
  {
  }

  /**
   * The dictionary for one [Cloud_Data] row: every key gets the value at its
   * position, or "" where the row is too short (the IndexError is caught);
   * values beyond the keys are dropped.
   */
  function AssignPadded(keys: seq<string>, vals: seq<string>, n: nat): Record
    requires n <= |keys|
  {
    if n == 0 then map[]
    else AssignPadded(keys, vals, n - 1)[keys[n - 1] := if n - 1 < |vals| then vals[n - 1] else ""]
  }

  function CloudRecord(keys: seq<string>, values: seq<string>): Record {
    AssignPadded(keys, values, |keys|)
  }

  /** [camel_to_snake(x) for x in names] */
  function SnakeAll(names: seq<string>): (r: seq<string>)
    ensures |r| == |names|
    ensures forall i :: 0 <= i < |r| ==> r[i] == CamelToSnake(names[i])
  {
    if names == [] then [] else [CamelToSnake(names[0])] + SnakeAll(names[1..])
  }

  /** The [Cloud_Data] keys: the names of the header line, converted to snake case. */
  function CloudKeys(header: string): seq<string> {
    SnakeAll(Split(header, ','))
  }

  /** The dictionary a [Cloud_Data] row gives. */
  function CloudRowRecord(keys: seq<string>, row: string): Record {
    CloudRecord(keys, Cells(row))
  }

  /** The collected lines: none when there is no [Cloud_Data] line. */
  function CollectedCloudLines(lines: seq<string>): seq<string> {
    var m := MarkerIndex(lines, "[Cloud_Data]");
    if m < |lines| then CloudSection(lines[m + 1..]) else []
  }

  /** parse_samplesheet_nextseq */
  function ParseNextSeqSheet(lines: seq<string>): seq<Record> {
    var collected := CollectedCloudLines(lines);
    if collected == [] then []
    else KeepMap(collected[1..], IsDataRow, CloudRowRecord, CloudKeys(collected[0]))
  }

  // ------------------------------------------------------- marker search

  /** MarkerIndex is the only index with the first-marker property. */
  lemma MarkerIndexUnique(lines: seq<string>, marker: string, i: nat)
    requires i <= |lines|
    requires i < |lines| ==> IsMarkerLine(lines[i], marker)
    requires forall j :: 0 <= j < i ==> !IsMarkerLine(lines[j], marker)
    ensures MarkerIndex(lines, marker) == i
  {
    MarkerIndexFirst(lines, marker);
  }

  /** Lines before the marker are skipped whatever they hold. */
  lemma {:induction false} MarkerIndexSkips(pre: seq<string>, rest: seq<string>, marker: string)
    requires forall j :: 0 <= j < |pre| ==> !IsMarkerLine(pre[j], marker)
    ensures MarkerIndex(pre + rest, marker) == |pre| + MarkerIndex(rest, marker)
    decreases |pre|
  {
    if pre != [] {
      assert (pre + rest)[0] == pre[0];
      assert (pre + rest)[1..] == pre[1..] + rest;
      MarkerIndexSkips(pre[1..], rest, marker);
    } else {
      assert pre + rest == rest;
    }
  }

  // ------------------------------------------------------- dictionaries

  /** The keys assigned are exactly the first n keys. */
  lemma {:induction false} AssignPairsKeys(keys: seq<string>, vals: seq<string>, n: nat, k: string)
    requires n <= |keys| && n <= |vals|
    ensures k in AssignPairs(keys, vals, n) <==> k in keys[..n]
    decreases n
  {
    if n > 0 {
      AssignPairsKeys(keys, vals, n - 1, k);
      assert keys[..n] == keys[..n - 1] + [keys[n - 1]];
    }
  }

  /** A key holds the value of its last assignment. */
  lemma {:induction false} AssignPairsLastWins(keys: seq<string>, vals: seq<string>, n: nat, i: nat)
    requires i < n <= |keys| && n <= |vals|
    requires forall j :: i < j < n ==> keys[j] != keys[i]
    ensures keys[i] in AssignPairs(keys, vals, n) && AssignPairs(keys, vals, n)[keys[i]] == vals[i]
    decreases n
  {
    if i < n - 1 {
      AssignPairsLastWins(keys, vals, n - 1, i);
    }
  }

  /**
   * A [Data] row's dictionary has exactly the header names of the cells the
   * row has: surplus cells are dropped, and the names past a short row's end
   * are absent rather than empty.
   */
  lemma DataRecordKeys(header: seq<string>, cells: seq<string>, k: string)
    ensures k in DataRecord(header, cells) <==> k in header[..Min(|header|, |cells|)]
  {
    AssignPairsKeys(header, cells, Min(|header|, |cells|), k);
  }

  /** A header name holds the cell at its last position in the row: a repeated name keeps the later cell. */
  lemma DataRecordValue(header: seq<string>, cells: seq<string>, i: nat)
    requires i < |header| && i < |cells|
    requires forall j :: i < j < Min(|header|, |cells|) ==> header[j] != header[i]
    ensures header[i] in DataRecord(header, cells) && DataRecord(header, cells)[header[i]] == cells[i]
  {
    AssignPairsLastWins(header, cells, Min(|header|, |cells|), i);
  }

  /** Every key of a [Cloud_Data] row is assigned, and nothing else is. */
  lemma {:induction false} AssignPaddedKeys(keys: seq<string>, vals: seq<string>, n: nat, k: string)
    requires n <= |keys|
    ensures k in AssignPadded(keys, vals, n) <==> k in keys[..n]
    decreases n
  {
    if n > 0 {
      AssignPaddedKeys(keys, vals, n - 1, k);
      assert keys[..n] == keys[..n - 1] + [keys[n - 1]];
    }
  }

  lemma {:induction false} AssignPaddedLastWins(keys: seq<string>, vals: seq<string>, n: nat, i: nat)
    requires i < n <= |keys|
    requires forall j :: i < j < n ==> keys[j] != keys[i]
    ensures keys[i] in AssignPadded(keys, vals, n)
    ensures AssignPadded(keys, vals, n)[keys[i]] == if i < |vals| then vals[i] else ""
    decreases n
  {
    if i < n - 1 {
      AssignPaddedLastWins(keys, vals, n - 1, i);
    }
  }

  /** A [Cloud_Data] dictionary has exactly the header's keys, however long the row. */
  lemma CloudRecordKeys(keys: seq<string>, values: seq<string>, k: string)
    ensures k in CloudRecord(keys, values) <==> k in keys
  {
    AssignPaddedKeys(keys, values, |keys|, k);
    assert keys[..|keys|] == keys;
  }

  /** A key holds the value at its last position, or "" when the row is too short for it. */
  lemma CloudRecordValue(keys: seq<string>, values: seq<string>, i: nat)
    requires i < |keys|
    requires forall j :: i < j < |keys| ==> keys[j] != keys[i]
    ensures keys[i] in CloudRecord(keys, values)
    ensures CloudRecord(keys, values)[keys[i]] == if i < |values| then values[i] else ""
  {
    AssignPaddedLastWins(keys, values, |keys|, i);
  }

  // ------------------------------------------------------------- sheets

  /** StopIteration exactly when no line that has a successor is a [Data] marker. */
  lemma ParseMiSeqSheetFails(lines: seq<string>)
    ensures ParseMiSeqSheet(lines).Err? <==> forall i :: 0 <= i < |lines| - 1 ==> !IsMarkerLine(lines[i], "[Data]")
  {
    MarkerIndexFirst(lines, "[Data]");
  }

  /** With m the index of the [Data] marker and a line after it: that line is the header, and the rest the rows. */
  lemma ParseMiSeqSheetAfterMarker(lines: seq<string>, m: nat)
    requires m == MarkerIndex(lines, "[Data]") && m + 1 < |lines|
    ensures ParseMiSeqSheet(lines) == Ok(DataTable(lines[m + 1], lines[m + 2..]))
  {
    var header, rows := lines[m + 1], lines[m + 2..];
    assert ParseMiSeqSheet(lines) == Ok(DataTable(header, rows));
  }

  /** With m the index of the [Data] marker and no line after it, the parse raises StopIteration. */
  lemma ParseMiSeqSheetNoHeader(lines: seq<string>, m: nat)
    requires m == MarkerIndex(lines, "[Data]") && |lines| <= m + 1
    ensures ParseMiSeqSheet(lines) == Err(StopIteration)
  {
  }

  /** The table after line m of rest is the table after line |pre| + m of pre + rest. */
  lemma DataTableShifted(pre: seq<string>, rest: seq<string>, m: nat)
    requires m + 1 < |rest|
    ensures var lines := pre + rest;
      DataTable(lines[|pre| + m + 1], lines[|pre| + m + 2..]) == DataTable(rest[m + 1], rest[m + 2..])
  {
    var lines := pre + rest;
    var header, rows := lines[|pre| + m + 1], lines[|pre| + m + 2..];
    assert header == rest[m + 1];
    AppendSuffix(pre, rest, m + 2);
    assert rows == rest[m + 2..];
  }

  /** Whatever precedes the first [Data] marker does not change the parse. */
  lemma ParseMiSeqSheetSkipsPreamble(pre: seq<string>, rest: seq<string>)
    requires forall j :: 0 <= j < |pre| ==> !IsMarkerLine(pre[j], "[Data]")
    ensures ParseMiSeqSheet(pre + rest) == ParseMiSeqSheet(rest)
  {
    MarkerIndexSkips(pre, rest, "[Data]");
    var m := MarkerIndex(rest, "[Data]");
    if m + 1 < |rest| {
      var lines, k := pre + rest, |pre| + m;
      var table := DataTable(rest[m + 1], rest[m + 2..]);
      DataTableShifted(pre, rest, m);
      assert DataTable(lines[k + 1], lines[k + 2..]) == table;
      ParseMiSeqSheetAfterMarker(lines, k);
      ParseMiSeqSheetAfterMarker(rest, m);
      assert ParseMiSeqSheet(lines) == Ok(table);
    } else {
      ParseMiSeqSheetNoHeader(pre + rest, |pre| + m);
      ParseMiSeqSheetNoHeader(rest, m);
    }
  }

  /** With i the index of the [Cloud_Data] marker, collection starts on the line after it. */
  lemma CollectedCloudLinesAt(lines: seq<string>, i: nat)
    requires i == MarkerIndex(lines, "[Cloud_Data]")
    ensures CollectedCloudLines(lines) == CloudSection(lines[Min(i + 1, |lines|)..])
  {
    if i < |lines| {
      assert Min(i + 1, |lines|) == i + 1;
    } else {
      var rest := lines[Min(i + 1, |lines|)..];
      assert rest == [];
      assert CloudSection(rest) == [];
    }
  }

  /** A sheet without a [Cloud_Data] line has no samples. */
  lemma ParseNextSeqSheetNoMarker(lines: seq<string>)
    requires forall i :: 0 <= i < |lines| ==> !IsMarkerLine(lines[i], "[Cloud_Data]")
    ensures ParseNextSeqSheet(lines) == []
  {
    MarkerIndexFirst(lines, "[Cloud_Data]");
  }


  /** One dictionary per non-blank row, the i-th from the i-th such row. */
  lemma DataTablePerRow(headerLine: string, rows: seq<string>)
    ensures var kept := Filter(rows, IsDataRow);
      |DataTable(headerLine, rows)| == |kept|
      && forall i :: 0 <= i < |kept| ==> DataTable(headerLine, rows)[i] == DataRowRecord(DataHeader(headerLine), kept[i])
  {
    KeepMapIsMapOfFilter(rows, IsDataRow, DataRowRecord, DataHeader(headerLine));
  }

  /**
   * When a line follows the [Data] marker (m is its index), that line is the
   * header, and each later row that is not blank gives one dictionary, in
   * file order, up to the end of the sheet.
   */
  lemma ParseMiSeqSheetPerRow(lines: seq<string>, m: nat)
    requires m == MarkerIndex(lines, "[Data]") && m + 1 < |lines|
    ensures var rows := Filter(lines[m + 2..], IsDataRow);
      |ParseMiSeqSheet(lines).value| == |rows|
      && forall i :: 0 <= i < |rows| ==> ParseMiSeqSheet(lines).value[i] == DataRowRecord(DataHeader(lines[m + 1]), rows[i])
  {
    ParseMiSeqSheetAfterMarker(lines, m);
    DataTablePerRow(lines[m + 1], lines[m + 2..]);
  }

  /**
   * One dictionary per collected line after the header, less the lines that
   * are only empty fields once split.
   */
  lemma ParseNextSeqSheetPerRow(lines: seq<string>)
    ensures var collected := CollectedCloudLines(lines);
      collected != [] ==>
        var rows := Filter(collected[1..], IsDataRow);
        var keys := CloudKeys(collected[0]);
        |ParseNextSeqSheet(lines)| == |rows| <= |collected| - 1
        && forall i :: 0 <= i < |rows| ==> ParseNextSeqSheet(lines)[i] == CloudRowRecord(keys, rows[i])
  {
    var collected := CollectedCloudLines(lines);
    if collected != [] {
      KeepMapIsMapOfFilter(collected[1..], IsDataRow, CloudRowRecord, CloudKeys(collected[0]));
    }
  }

  // ------------------------------------------------------------ examples

  /** Lower-casing leaves a string without capitals unchanged. */
  lemma LowerUnchanged(s: string)
    requires NoUpper(s)
    ensures Lower(s) == s
  {
  }

  /** A two-name header line without capitals is split and kept as it is. */
  lemma ExampleDataHeader(line: string, a: string, b: string)
    requires line == a + "," + b && ',' !in a && ',' !in b
    requires a != [] && b != [] && !IsSpace(a[0]) && !IsSpace(b[|b| - 1])
    requires NoUpper(a) && NoUpper(b)
    ensures DataHeader(line) == [a, b]
  {
    assert line[..|a|] == a && line[|a| + 1..] == b;
    LowerUnchanged(a);
    LowerUnchanged(b);
    assert LowerAll([a, b]) == [a, b];
    SplitTwo(line, ',', |a|);
    StripUnchanged(line);
  }

  /** A two-cell row "xy,zw". */
  lemma ExampleDataRow(line: string, header: seq<string>)
    requires |line| == 5 && line[2] == ','
    requires forall i :: 0 <= i < 5 && i != 2 ==> line[i] != ',' && !IsSpace(line[i])
    requires |header| == 2
    ensures IsDataRow(line)
    ensures DataRowRecord(header, line) == map[header[0] := line[..2]][header[1] := line[3..]]
  {
    SplitTwo(line, ',', 2);
    var cells := [line[..2], line[3..]];
    assert cells[0] != "";
    assert AssignPairs(header, cells, 1) == map[header[0] := cells[0]];
    StripUnchanged(line);
  }

  /** A row of empty fields gives no dictionary. */
  lemma ExampleBlankRow(line: string)
    requires |line| == 1 && line[0] == ','
    ensures !IsDataRow(line)
  {
    assert line[..0] == [] && line[1..] == [];
    SplitTwo(line, ',', 0);
    StripUnchanged(line);
  }

  /** Two two-cell rows with a blank row between them. */
  lemma ExampleDataRows(rows: seq<string>, header: seq<string>)
    requires |rows| == 3 && |header| == 2
    requires |rows[0]| == 5 && rows[0][2] == ','
    requires forall i :: 0 <= i < 5 && i != 2 ==> rows[0][i] != ',' && !IsSpace(rows[0][i])
    requires |rows[1]| == 1 && rows[1][0] == ','
    requires |rows[2]| == 5 && rows[2][2] == ','
    requires forall i :: 0 <= i < 5 && i != 2 ==> rows[2][i] != ',' && !IsSpace(rows[2][i])
    ensures KeepMap(rows, IsDataRow, DataRowRecord, header) == [
      map[header[0] := rows[0][..2]][header[1] := rows[0][3..]],
      map[header[0] := rows[2][..2]][header[1] := rows[2][3..]]]
  {
    var r1, r2, r3 := rows[0], rows[1], rows[2];
    var one := [] + [r1];
    var two := one + [r2];
    assert rows == two + [r3];
    ExampleDataRow(r1, header);
    ExampleBlankRow(r2);
    ExampleDataRow(r3, header);
    KeepMapSnoc([], r1, IsDataRow, DataRowRecord, header);
    KeepMapSnoc(one, r2, IsDataRow, DataRowRecord, header);
    KeepMapSnoc(two, r3, IsDataRow, DataRowRecord, header);
  }

  /** The [Data] marker is found on the first line. */
  lemma ExampleDataMarker(lines: seq<string>)
    requires |lines| >= 1 && lines[0] == "[Data]"
    ensures MarkerIndex(lines, "[Data]") == 0
  {
    StripUnchanged(lines[0]);
  }

  lemma ExampleHeaderNames(name: string, project: string)
    requires name == "sample_name" && project == "sample_project"
    ensures ',' !in name && ',' !in project && NoUpper(name) && NoUpper(project)
    ensures name != [] && project != [] && !IsSpace(name[0]) && !IsSpace(project[|project| - 1])
  {
  }

  /** The table of the example below, from its header line down. */
  lemma ExampleDataTable(header: string, rows: seq<string>, name: string, project: string, s1: string, p1: string, s2: string, p2: string)
    requires name == "sample_name" && project == "sample_project"
    requires s1 == "S1" && p1 == "P1" && s2 == "S2" && p2 == "P2"
    requires header == name + "," + project && rows == [s1 + "," + p1, ",", s2 + "," + p2]
    ensures DataTable(header, rows) == [map[name := s1, project := p1], map[name := s2, project := p2]]
  {
    ExampleHeaderNames(name, project);
    ExampleDataHeader(header, name, project);
    assert rows[0][..2] == s1 && rows[0][3..] == p1;
    assert rows[2][..2] == s2 && rows[2][3..] == p2;
    ExampleDataRows(rows, [name, project]);
  }

  /**
   * A [Data] table with a blank row between two samples gives exactly two
   * dictionaries. The names stand for the literals written in the requires.
   */
  lemma MiSeqSheetExample(lines: seq<string>, name: string, project: string, s1: string, p1: string, s2: string, p2: string)
    requires name == "sample_name" && project == "sample_project"
    requires s1 == "S1" && p1 == "P1" && s2 == "S2" && p2 == "P2"
    requires lines == ["[Data]", name + "," + project, s1 + "," + p1, ",", s2 + "," + p2]
    ensures ParseMiSeqSheet(lines) == Ok([map[name := s1, project := p1], map[name := s2, project := p2]])
  {
    ExampleDataMarker(lines);
    ParseMiSeqSheetAfterMarker(lines, 0);
    ExampleDataTable(lines[1], lines[2..], name, project, s1, p1, s2, p2);
  }

  /** A line that neither ends the [Cloud_Data] section nor changes when cleaned. */
  lemma ExampleCloudLine(line: string)
    requires line != [] && line[0] != '[' && line[|line| - 1] != ','
    requires !IsSpace(line[0]) && !IsSpace(line[|line| - 1])
    ensures !EndsCloudSection(line) && CloudLine(line) == line
  {
    StripUnchanged(line);
  }

  /** A row yields a dictionary exactly when its stripped text has a character other than ','. */
  lemma IsDataRowIff(line: string)
    ensures IsDataRow(line) <==> exists j :: 0 <= j < |Strip(line)| && Strip(line)[j] != ','
  {
    AllEmptySplit(Strip(line), ',');
  }

  /**
   * Cleaning a line that starts with a comma and ends in whitespace and one
   * more comma drops that last comma only.
   */
  lemma SpaceCommaCleaned(cleaned: string)
    requires cleaned != [] && cleaned[0] == ',' && IsSpace(cleaned[|cleaned| - 1])
    ensures CloudLine(cleaned + [',']) == cleaned
  {
    StripThenRStripOne(cleaned, ',');
  }

  /** A line whose first character differs from the prefix's does not start with it. */
  lemma FirstCharDiffers(s: string, prefix: string)
    requires s != [] && prefix != [] && s[0] != prefix[0]
    ensures !StartsWith(s, prefix)
  {
  }

  /** commas + w + "," is not a section end, and cleaning it drops the last comma only. */
  lemma CommasSpaceCommaKept(commas: string, w: char)
    requires commas != [] && commas[0] == ',' && IsSpace(w)
    ensures !EndsCloudSection(commas + [w, ',']) && CloudLine(commas + [w, ',']) == commas + [w]
  {
    var line := commas + [w, ','];
    assert line == (commas + [w]) + [','];
    SpaceCommaCleaned(commas + [w]);
    StripUnchanged(line);
    FirstCharDiffers(line, "[Cloud_Settings]");
  }

  /** commas + w strips to the commas. */
  lemma CommasSpaceStripped(commas: string, w: char)
    requires commas != [] && commas[0] == ',' && commas[|commas| - 1] == ',' && IsSpace(w)
    ensures Strip(commas + [w]) == commas
  {
    var cleaned := commas + [w];
    assert cleaned[..|cleaned| - 1] == commas;
    TrimRightLast(cleaned);
    StripUnchanged(commas);
  }

  /**
   * A line of commas, one whitespace character and a comma (such as ", ,")
   * does not end the [Cloud_Data] section, since cleaned it still ends in the
   * whitespace; yet it is only empty fields and gives no dictionary. So the
   * samples can be fewer than the collected lines after the header.
   */
  lemma CollectedButBlank(commas: string, w: char)
    requires commas != [] && forall j :: 0 <= j < |commas| ==> commas[j] == ','
    requires IsSpace(w)
    ensures var line := commas + [w, ','];
      !EndsCloudSection(line) && CloudLine(line) == commas + [w] && !IsDataRow(CloudLine(line))
  {
    CommasSpaceCommaKept(commas, w);
    CommasSpaceStripped(commas, w);
    IsDataRowIff(commas + [w]);
  }

  /** Two lines of the section, then the end of the sheet. */
  lemma ExampleCloudSection(rest: seq<string>)
    requires |rest| == 2 && !EndsCloudSection(rest[0]) && !EndsCloudSection(rest[1])
    requires CloudLine(rest[0]) == rest[0] && CloudLine(rest[1]) == rest[1]
    ensures CloudSection(rest) == rest
  {
    assert rest[1..][1..] == [];
    assert CloudSection(rest[1..]) == [rest[1]];
  }

  /** A one-cell row fills the first key and leaves the second empty. */
  lemma ExampleCloudRow(line: string, keys: seq<string>)
    requires line != [] && ',' !in line && !IsSpace(line[0]) && !IsSpace(line[|line| - 1])
    requires |keys| == 2
    ensures IsDataRow(line)
    ensures CloudRowRecord(keys, line) == map[keys[0] := line][keys[1] := ""]
  {
    SplitNone(line, ',');
    assert AssignPadded(keys, [line], 1) == map[keys[0] := line];
    StripUnchanged(line);
  }

  lemma ExampleCloudNames(id: string, project: string)
    requires id == "SampleID" && project == "ProjectName"
    ensures ',' !in id && ',' !in project
  {
  }

  lemma ExampleCloudHeaderSplit(header: string, id: string, project: string)
    requires |id| == 8 && ',' !in id && ',' !in project && header == id + "," + project
    ensures Split(header, ',') == [id, project]
  {
    assert header[..8] == id && header[9..] == project;
    SplitTwo(header, ',', 8);
  }

  lemma ExampleCloudKeys(header: string, id: string, project: string)
    requires id == "SampleID" && project == "ProjectName" && header == id + "," + project
    ensures CloudKeys(header) == ["sample_id", "project_name"]
  {
    ExampleCloudNames(id, project);
    ExampleCloudHeaderSplit(header, id, project);
    CamelToSnakeSampleID(id);
    CamelToSnakeProjectName(project);
    assert SnakeAll([id, project]) == [CamelToSnake(id), CamelToSnake(project)];
  }

  lemma ExampleCloudMarker(lines: seq<string>)
    requires |lines| >= 1 && lines[0] == "[Cloud_Data]"
    ensures MarkerIndex(lines, "[Cloud_Data]") == 0
  {
    StripUnchanged(lines[0]);
  }

  /**
   * A [Cloud_Data] header in camel case gives snake-case keys, and a row
   * with one value gives "" for the second key.
   */
  lemma NextSeqSheetExample(lines: seq<string>, id: string, project: string, s1: string)
    requires id == "SampleID" && project == "ProjectName" && s1 == "S1"
    requires lines == ["[Cloud_Data]", id + "," + project, s1]
    ensures ParseNextSeqSheet(lines) == [map["sample_id" := s1, "project_name" := ""]]
  {
    ExampleCloudKeys(lines[1], id, project);
    ExampleCloudLine(lines[1]);
    ExampleCloudLine(lines[2]);
    ExampleCloudRow(s1, ["sample_id", "project_name"]);
    ExampleCloudSection(lines[1..]);
    ExampleCloudMarker(lines);
    var collected := lines[1..];
    assert CollectedCloudLines(lines) == collected;
    assert collected[1..] == [] + [s1];
    KeepMapSnoc([], s1, IsDataRow, CloudRowRecord, ["sample_id", "project_name"]);
  }

  // ------------------------------------------------------------- parsers

  /** One more sample at the end adds its dictionary at the end. */
  lemma FieldsSnoc(samples: seq<Sample>, s: Sample)
    ensures Fields(samples + [s]) == Fields(samples) + [s.fields]
  {
    assert (samples + [s])[..|samples|] == samples;
  }

  /** The first loop of both parsers: skip lines up to the first marker line. */
  method FindMarker(lines: seq<string>, marker: string) returns (i: nat)
    ensures i == MarkerIndex(lines, marker)
  {
    i := 0;
    while i < |lines| && !IsMarkerLine(lines[i], marker)
      invariant i <= |lines|
      invariant forall j :: 0 <= j < i ==> !IsMarkerLine(lines[j], marker)
    {
      i := i + 1;
    }
    MarkerIndexUnique(lines, marker, i);
  }

  /** The dictionary of one [Data] row, filled cell by cell; a cell past the header is skipped. */
  method DataRowDict(header: seq<string>, cells: seq<string>) returns (record: Record)
    ensures record == DataRecord(header, cells)
  {
    record := map[];
    var idx := 0;
    while idx < |cells|
      invariant idx <= |cells|
      invariant record == AssignPairs(header, cells, Min(idx, |header|))
    {
      if idx < |header| {
        record := record[header[idx] := cells[idx]];
      }
      idx := idx + 1;
    }
  }

  /** data.append(d): a new sample holding the dictionary, at the end. */
  method AppendSample(samples: seq<Sample>, d: Record, ghost held: seq<Record>) returns (r: seq<Sample>)
    requires Distinct(samples) && Fields(samples) == held
    ensures Fields(r) == held + [d]
    ensures Distinct(r)
    ensures forall x :: x in r ==> x in samples || fresh(x)
  {
    var sample := new Sample(d);
    FieldsSnoc(samples, sample);
    DistinctSnoc(samples, sample);
    r := samples + [sample];
  }

  /** The second loop of parse_samplesheet_miseq: one new sample per non-blank row. */
  method DataRows(header: seq<string>, rows: seq<string>) returns (data: seq<Sample>)
    ensures Fields(data) == KeepMap(rows, IsDataRow, DataRowRecord, header)
    ensures Distinct(data) && forall x :: x in data ==> fresh(x)
  {
    data := [];
    var j := 0;
    while j < |rows|
      invariant j <= |rows|
      invariant Fields(data) == KeepMap(rows[..j], IsDataRow, DataRowRecord, header)
      invariant Distinct(data) && forall x :: x in data ==> fresh(x)
    {
      var cells := Cells(rows[j]);
      KeepMapPrefix(rows, j, IsDataRow, DataRowRecord, header);
      if !AllEmpty(cells) {
        var record := DataRowDict(header, cells);
        data := AppendSample(data, record, KeepMap(rows[..j], IsDataRow, DataRowRecord, header));
      }
      j := j + 1;
    }
    KeepMapWhole(rows, IsDataRow, DataRowRecord, header);
  }

  /** A new sample at the end keeps the samples distinct. */
  lemma DistinctSnoc(samples: seq<Sample>, s: Sample)
    requires Distinct(samples) && s !in samples
    ensures Distinct(samples + [s])
  {
  }

  /**
   * parse_samplesheet_miseq as the loops the script runs: skip to the
   * [Data] marker, take the next line as the header, then build one new
   * dictionary per non-blank row. Its result is the one ParseMiSeqSheet
   * describes, held in new, distinct sample objects.
   */
  method ParseSampleSheetMiSeq(lines: seq<string>) returns (r: Result<seq<Sample>>)
    ensures ParseMiSeqSheet(lines).Err? ==> r == Err(StopIteration)
    ensures ParseMiSeqSheet(lines).Ok? ==> r.Ok? && Fields(r.value) == ParseMiSeqSheet(lines).value
    ensures r.Ok? ==> Distinct(r.value) && forall x :: x in r.value ==> fresh(x)
  {
    var i := FindMarker(lines, "[Data]");
    if i + 1 >= |lines| {
      return Err(StopIteration);
    }
    var data := DataRows(DataHeader(lines[i + 1]), lines[i + 2..]);
    ParseMiSeqSheetAfterMarker(lines, i);
    return Ok(data);
  }

  /** The [Cloud_Data] collection loop, from line j on: the cleaned lines up to the end of the section. */
  method CollectCloudLines(lines: seq<string>, j: nat) returns (collected: seq<string>)
    requires j <= |lines|
    ensures collected == CloudSection(lines[j..])
  {
    collected := [];
    var n := j;
    while n < |lines| && !EndsCloudSection(lines[n])
      invariant j <= n <= |lines|
      invariant collected + CloudSection(lines[n..]) == CloudSection(lines[j..])
    {
      CloudSectionStep(lines[n..]);
      assert lines[n..][1..] == lines[n + 1..];
      AppendAssoc(collected, [CloudLine(lines[n])], CloudSection(lines[n + 1..]));
      collected := collected + [CloudLine(lines[n])];
      n := n + 1;
    }
    CloudSectionStop(lines[n..]);
  }

  /** The dictionary of one [Cloud_Data] row, filled key by key; "" where the row is short. */
  method CloudRowDict(keys: seq<string>, values: seq<string>) returns (d: Record)
    ensures d == CloudRecord(keys, values)
  {
    d := map[];
    var idx := 0;
    while idx < |keys|
      invariant idx <= |keys|
      invariant d == AssignPadded(keys, values, idx)
    {
      if idx < |values| {
        d := d[keys[idx] := values[idx]];
      } else {
        d := d[keys[idx] := ""];
      }
      idx := idx + 1;
    }
  }

  /** The row loop of parse_samplesheet_nextseq: one new sample per non-blank row. */
  method CloudRows(keys: seq<string>, rows: seq<string>) returns (data: seq<Sample>)
    ensures Fields(data) == KeepMap(rows, IsDataRow, CloudRowRecord, keys)
    ensures Distinct(data) && forall x :: x in data ==> fresh(x)
  {
    data := [];
    var r := 0;
    while r < |rows|
      invariant r <= |rows|
      invariant Fields(data) == KeepMap(rows[..r], IsDataRow, CloudRowRecord, keys)
      invariant Distinct(data) && forall x :: x in data ==> fresh(x)
    {
      var values := Cells(rows[r]);
      KeepMapPrefix(rows, r, IsDataRow, CloudRowRecord, keys);
      if !AllEmpty(values) {
        var d := CloudRowDict(keys, values);
        data := AppendSample(data, d, KeepMap(rows[..r], IsDataRow, CloudRowRecord, keys));
      }
      r := r + 1;
    }
    KeepMapWhole(rows, IsDataRow, CloudRowRecord, keys);
  }

  /**
   * parse_samplesheet_nextseq as the loops the script runs: skip to the
   * [Cloud_Data] marker, collect the cleaned lines of the section, then
   * build one new dictionary per non-blank row after the first. Its result
   * is the one ParseNextSeqSheet describes, held in new, distinct sample
   * objects.
   */
  method ParseSampleSheetNextSeq(lines: seq<string>) returns (data: seq<Sample>)
    ensures Fields(data) == ParseNextSeqSheet(lines)
    ensures Distinct(data) && forall x :: x in data ==> fresh(x)
  {
    var i := FindMarker(lines, "[Cloud_Data]");
    // The second loop resumes after the marker, or finds the lines used up.
    var collected := CollectCloudLines(lines, Min(i + 1, |lines|));
    CollectedCloudLinesAt(lines, i);
    data := [];
    if collected != [] {
      data := CloudRows(CloudKeys(collected[0]), collected[1..]);
    }
  }
}
