/**
 * Reading scenario tables: a two-column table as a key/value map and a
 * one-column table as a list, with an optional header row. A table is its
 * rows, each row its cells' values. On an error the rows read so far are
 * returned along with it.
 */
module GodogTable {
  import opened Wrappers

  type Row = seq<string>

  datatype TableError = WrongColumnCount(actual: nat, expected: nat) | DuplicateKey(key: string)

  /** The rows that carry data: all of them, or all but the first when the table has a header. */
  function DataRows(rows: seq<Row>, tableHasHeader: bool): (data: seq<Row>)
    ensures tableHasHeader && |rows| > 0 ==> data == rows[1..]
    ensures !tableHasHeader || rows == [] ==> data == rows
  {
    if tableHasHeader && |rows| > 0 then rows[1..] else rows
  }

  // ---------------------------------------------------------------------------
  // Key/value tables

  datatype KeyValueResult = KeyValueResult(res: map<string, string>, err: Option<TableError>)

  /** Reading the data rows one by one, stopping at the first bad row. */
  function KeyValues(rows: seq<Row>): KeyValueResult {
    if rows == [] then KeyValueResult(map[], None)
    else
      var prev := KeyValues(rows[..|rows| - 1]);
      var row := rows[|rows| - 1];
      if prev.err.Some? then prev
      else if |row| != 2 then KeyValueResult(prev.res, Some(WrongColumnCount(|row|, 2)))
      else if row[0] in prev.res then KeyValueResult(prev.res, Some(DuplicateKey(row[0])))
      else KeyValueResult(prev.res[row[0] := row[1]], None)
  }

  /** Every row has two cells and no key is given twice. */
  predicate WellFormedKeyValues(rows: seq<Row>) {
    (forall i :: 0 <= i < |rows| ==> |rows[i]| == 2) &&
    (forall i, j :: 0 <= i < j < |rows| ==> rows[i][0] != rows[j][0])
  }

  /** One more row: ignored after an error, else checked and filed. */
  lemma KeyValuesSnoc(rows: seq<Row>, row: Row)
    ensures KeyValues(rows + [row]) ==
      var prev := KeyValues(rows);
      if prev.err.Some? then prev
      else if |row| != 2 then KeyValueResult(prev.res, Some(WrongColumnCount(|row|, 2)))
      else if row[0] in prev.res then KeyValueResult(prev.res, Some(DuplicateKey(row[0])))
      else KeyValueResult(prev.res[row[0] := row[1]], None)
  {
    assert (rows + [row])[..|rows|] == rows;
  }

  /** Reading succeeds exactly on well-formed rows, and then the keys are exactly the rows' keys. */
  lemma {:induction false} KeyValuesSucceeds(rows: seq<Row>)
    ensures KeyValues(rows).err.None? <==> WellFormedKeyValues(rows)
    ensures KeyValues(rows).err.None? ==>
      forall k :: k in KeyValues(rows).res <==> exists i :: 0 <= i < |rows| && rows[i][0] == k
  {
    if rows != [] {
      var init := rows[..|rows| - 1];
      var row := rows[|rows| - 1];
      KeyValuesSucceeds(init);
      assert init + [row] == rows;
      KeyValuesSnoc(init, row);
      var prev := KeyValues(init);
      assert forall i :: 0 <= i < |init| ==> rows[i] == init[i];
      if prev.err.None? && |row| == 2 && row[0] in prev.res {
        var i :| 0 <= i < |init| && init[i][0] == row[0];
        assert rows[i][0] == rows[|rows| - 1][0];
      }
      if KeyValues(rows).err.None? {
        forall k | k in KeyValues(rows).res
          ensures exists i :: 0 <= i < |rows| && rows[i][0] == k
        {
          if k != row[0] {
            var i :| 0 <= i < |init| && init[i][0] == k;
            assert rows[i][0] == k;
          }
        }
      }
    }
  }

  /** On success each row's key maps to that row's value. */
  lemma {:induction false} KeyValuesContents(rows: seq<Row>)
    requires KeyValues(rows).err.None?
    ensures forall i :: 0 <= i < |rows| ==>
      |rows[i]| == 2 && rows[i][0] in KeyValues(rows).res && KeyValues(rows).res[rows[i][0]] == rows[i][1]
  {
    if rows != [] {
      var init := rows[..|rows| - 1];
      var row := rows[|rows| - 1];
      assert init + [row] == rows;
      KeyValuesSnoc(init, row);
      KeyValuesContents(init);
      KeyValuesSucceeds(rows);
      assert forall i :: 0 <= i < |init| ==> rows[i] == init[i];
    }
  }

  /** Rows after a bad row change nothing. */
  lemma {:induction false} KeyValuesErrorSticks(rows: seq<Row>, more: seq<Row>)
    requires KeyValues(rows).err.Some?
    ensures KeyValues(rows + more) == KeyValues(rows)
    decreases |more|
  {
    if more == [] {
      assert rows + more == rows;
    } else {
      KeyValuesErrorSticks(rows, more[..|more| - 1]);
      assert (rows + more)[..|rows + more| - 1] == rows + more[..|more| - 1];
    }
  }

  lemma DataRowsSnoc(rows: seq<Row>, tableHasHeader: bool, k: nat)
    requires k < |rows|
    ensures tableHasHeader && k == 0 ==> DataRows(rows[..k + 1], tableHasHeader) == []
    ensures !(tableHasHeader && k == 0) ==>
      DataRows(rows[..k + 1], tableHasHeader) == DataRows(rows[..k], tableHasHeader) + [rows[k]]
    ensures DataRows(rows, tableHasHeader) == DataRows(rows[..k + 1], tableHasHeader) + rows[k + 1..]
  {
    if tableHasHeader {
      if k > 0 {
        assert rows[..k + 1][1..] == rows[..k][1..] + [rows[k]];
      }
      assert rows[1..] == rows[..k + 1][1..] + rows[k + 1..];
    } else {
      assert rows[..k + 1] == rows[..k] + [rows[k]];
      assert rows == rows[..k + 1] + rows[k + 1..];
    }
  }

  /** `GodogTableToKeyValueMap`: skip the header, then file each row's value under its key. */
  method GodogTableToKeyValueMap(rows: seq<Row>, tableHasHeader: bool) returns (res: map<string, string>, err: Option<TableError>)
    ensures KeyValueResult(res, err) == KeyValues(DataRows(rows, tableHasHeader))
  {
    res := map[];
    var rNum := 0;
    while rNum < |rows|
      invariant 0 <= rNum <= |rows|
      invariant KeyValueResult(res, None) == KeyValues(DataRows(rows[..rNum], tableHasHeader))
    {
      DataRowsSnoc(rows, tableHasHeader, rNum);
      var row := rows[rNum];
      if tableHasHeader && rNum == 0 {
        rNum := rNum + 1;
        continue;
      }
      ghost var data := DataRows(rows[..rNum], tableHasHeader);
      KeyValuesSnoc(data, row);
      if |row| != 2 {
        KeyValuesErrorSticks(data + [row], rows[rNum + 1..]);
        return res, Some(WrongColumnCount(|row|, 2));
      }
      var key := row[0];
      var value := row[1];
      if key in res {
        KeyValuesErrorSticks(data + [row], rows[rNum + 1..]);
        return res, Some(DuplicateKey(key));
      }
      res := res[key := value];
      rNum := rNum + 1;
    }
    assert rows[..rNum] == rows;
    return res, None;
  }

  // ---------------------------------------------------------------------------
  // Single-column tables

  datatype ColumnResult = ColumnResult(values: seq<string>, err: Option<TableError>)

  /**
   * Reading one-cell rows in order, stopping at the first row of another
   * width. The error names 2 as the expected width, as the source's
   * message does, although one cell is what is checked.
   */
  function SingleColumn(rows: seq<Row>): (r: ColumnResult)
    ensures |r.values| <= |rows|
  {
    if rows == [] then ColumnResult([], None)
    else
      var prev := SingleColumn(rows[..|rows| - 1]);
      var row := rows[|rows| - 1];
      if prev.err.Some? then prev
      else if |row| != 1 then ColumnResult(prev.values, Some(WrongColumnCount(|row|, 2)))
      else ColumnResult(prev.values + [row[0]], None)
  }

  /**
   * Reading fails exactly when some row is not one cell wide; the values
   * are the first cells of the rows before the first such row, in order.
   */
  lemma {:induction false} SingleColumnSpec(rows: seq<Row>)
    ensures SingleColumn(rows).err.None? <==> forall i :: 0 <= i < |rows| ==> |rows[i]| == 1
    ensures var r := SingleColumn(rows);
      forall i :: 0 <= i < |r.values| ==> |rows[i]| == 1 && r.values[i] == rows[i][0]
    ensures var r := SingleColumn(rows);
      r.err.Some? ==> |r.values| < |rows| && |rows[|r.values|]| != 1
    ensures SingleColumn(rows).err.None? ==> |SingleColumn(rows).values| == |rows|
  {
    if rows != [] {
      var init := rows[..|rows| - 1];
      SingleColumnSpec(init);
      assert forall i :: 0 <= i < |init| ==> rows[i] == init[i];
    }
  }

  lemma SingleColumnSnoc(rows: seq<Row>, row: Row)
    ensures SingleColumn(rows + [row]) ==
      var prev := SingleColumn(rows);
      if prev.err.Some? then prev
      else if |row| != 1 then ColumnResult(prev.values, Some(WrongColumnCount(|row|, 2)))
      else ColumnResult(prev.values + [row[0]], None)
  {
    assert (rows + [row])[..|rows|] == rows;
  }

  lemma {:induction false} SingleColumnErrorSticks(rows: seq<Row>, more: seq<Row>)
    requires SingleColumn(rows).err.Some?
    ensures SingleColumn(rows + more) == SingleColumn(rows)
    decreases |more|
  {
    if more == [] {
      assert rows + more == rows;
    } else {
      SingleColumnErrorSticks(rows, more[..|more| - 1]);
      assert (rows + more)[..|rows + more| - 1] == rows + more[..|more| - 1];
    }
  }

  /** `GodogTableToSingleColumnSlice`: skip the header, then collect each row's only cell. */
  method GodogTableToSingleColumnSlice(rows: seq<Row>, tableHasHeader: bool) returns (res: seq<string>, err: Option<TableError>)
    ensures ColumnResult(res, err) == SingleColumn(DataRows(rows, tableHasHeader))
  {
    res := [];
    var rNum := 0;
    while rNum < |rows|
      invariant 0 <= rNum <= |rows|
      invariant ColumnResult(res, None) == SingleColumn(DataRows(rows[..rNum], tableHasHeader))
    {
      DataRowsSnoc(rows, tableHasHeader, rNum);
      var row := rows[rNum];
      if tableHasHeader && rNum == 0 {
        rNum := rNum + 1;
        continue;
      }
      ghost var data := DataRows(rows[..rNum], tableHasHeader);
      SingleColumnSnoc(data, row);
      if |row| != 1 {
        SingleColumnErrorSticks(data + [row], rows[rNum + 1..]);
        return res, Some(WrongColumnCount(|row|, 2));
      }
      var value := row[0];
      res := res + [value];
      rNum := rNum + 1;
    }
    assert rows[..rNum] == rows;
    return res, None;
  }
}
