/**
 * `write_to_csv` (zoom_api_helper/utils.py), the last step of
 * `bulk_create_meetings`: a `csv.DictWriter` whose columns are the keys of
 * the first row.  A cell a row lacks is written empty; a key that is not a
 * column makes `writerows` raise `ValueError` at that row, once the rows
 * before it have been written.  Column order is not modelled.
 */
module CsvOutput {
  import opened Wrappers
  import opened Values
  import opened CreateMeeting
  import opened Reconciliation

  /** What reached the file: its columns and one record per row written. */
  datatype CsvFile = CsvFile(columns: set<string>, records: seq<Row>)

  /** The `ValueError` of `DictWriter`: row `row` has a key that is not a column. */
  datatype WriteError = ExtraKey(row: nat)

  /** A row as `DictWriter` writes it under `columns`, a missing cell empty (`restval=''`). */
  function Record(columns: set<string>, row: Row): (r: Row)
    ensures r.Keys == columns
    ensures forall k :: k in columns && k in row ==> r[k] == row[k]
    ensures forall k :: k in columns && k !in row ==> r[k] == Str("")
  {
    map k | k in columns :: if k in row then row[k] else Str("")
  }

  /** Index of the first row with a key outside `columns`; `|rows|` when there is none. */
  function FirstExtra(rows: seq<Row>, columns: set<string>): (n: nat)
    ensures n <= |rows|
    ensures forall i :: 0 <= i < n ==> rows[i].Keys <= columns
    ensures n < |rows| ==> !(rows[n].Keys <= columns)
  {
    if rows == [] then 0
    else if rows[0].Keys <= columns then
      var rest := FirstExtra(rows[1..], columns);
      assert forall i :: 1 <= i < 1 + rest ==> rows[i] == rows[1..][i - 1];
      1 + rest
    else 0
  }

  /**
   * Lines 71-75 of utils.py, as written: the columns are the first row's
   * keys; the rows are written in order until one has a key that is not a
   * column, which raises.
   */
  function WriteToCsv(rows: seq<Row>): (r: (CsvFile, Option<WriteError>))
    requires |rows| > 0
    ensures r.0.columns == rows[0].Keys
    ensures r.1.None? <==> forall i :: 0 <= i < |rows| ==> rows[i].Keys <= rows[0].Keys
    ensures r.1.None? ==> |r.0.records| == |rows|
    ensures r.1.Some? ==> && r.1.value.row < |rows|
                          && !(rows[r.1.value.row].Keys <= rows[0].Keys)
                          && |r.0.records| == r.1.value.row
    ensures forall i :: 0 <= i < |r.0.records| ==>
              rows[i].Keys <= rows[0].Keys && r.0.records[i] == Record(rows[0].Keys, rows[i])
  {
    var columns := rows[0].Keys;
    var n := FirstExtra(rows, columns);
    (CsvFile(columns, seq(n, i requires 0 <= i < n => Record(columns, rows[i]))),
     if n < |rows| then Some(ExtraKey(n)) else None)
  }

  /** Every key of every row. */
  function AllKeys(rows: seq<Row>): (ks: set<string>)
    ensures forall i :: 0 <= i < |rows| ==> rows[i].Keys <= ks
  {
    if rows == [] then {}
    else
      var n := |rows| - 1;
      var prev := AllKeys(rows[..n]);
      assert forall i :: 0 <= i < n ==> rows[..n][i] == rows[i];
      prev + rows[n].Keys
  }

  /** Every column of `AllKeys` comes from some row. */
  lemma {:induction false} AllKeysFromRows(rows: seq<Row>, k: string)
    requires k in AllKeys(rows)
    ensures exists i :: 0 <= i < |rows| && k in rows[i]
  {
    var n := |rows| - 1;
    if k !in rows[n] {
      AllKeysFromRows(rows[..n], k);
      var i :| 0 <= i < n && k in rows[..n][i];
      assert rows[..n][i] == rows[i];
    }
  }

  /**
   * The intended writer: the columns are the keys of all rows, so every row
   * is written whole and nothing raises.
   */
  function WriteAllColumns(rows: seq<Row>): (r: (CsvFile, Option<WriteError>))
    ensures r.1.None?
    ensures r.0.columns == AllKeys(rows)
    ensures |r.0.records| == |rows|
    ensures forall i, k :: 0 <= i < |rows| && k in rows[i] ==> k in r.0.records[i] && r.0.records[i][k] == rows[i][k]
    ensures forall i :: 0 <= i < |rows| ==> r.0.records[i].Keys == r.0.columns
  {
    var columns := AllKeys(rows);
    (CsvFile(columns, seq(|rows|, i requires 0 <= i < |rows| => Record(columns, rows[i]))), None)
  }

  /** When no row has a key the first row lacks, both writers leave the same file. */
  lemma WritersAgree(rows: seq<Row>)
    requires |rows| > 0
    requires forall i :: 0 <= i < |rows| ==> rows[i].Keys <= rows[0].Keys
    ensures WriteToCsv(rows) == WriteAllColumns(rows)
  {
    var ks := AllKeys(rows);
    forall k | k in ks ensures k in rows[0].Keys {
      AllKeysFromRows(rows, k);
      var i :| 0 <= i < |rows| && k in rows[i];
    }
    assert ks == rows[0].Keys;
  }

  /**
   * As written, a failed first row breaks the write: its row lacks the
   * response's keys, which the second row, updated by `dict.update`, carries.
   * Only the first row reaches the file.
   */
  lemma FailedFirstRowBreaksWriter()
    ensures var rows := Reconciled([map["topic" := Str("a")], map["topic" := Str("b")]],
                                   [Failed(HttpError(400)), Created(map["join_url" := Str("u")])], None);
            && WriteToCsv(rows).1 == Some(ExtraKey(1))
            && |WriteToCsv(rows).0.records| == 1
            && WriteAllColumns(rows).1.None?
            && |WriteAllColumns(rows).0.records| == 2
  {
    var rows := Reconciled([map["topic" := Str("a")], map["topic" := Str("b")]],
                           [Failed(HttpError(400)), Created(map["join_url" := Str("u")])], None);
    assert "join_url" in rows[1] && "join_url" !in rows[0];
  }
}
