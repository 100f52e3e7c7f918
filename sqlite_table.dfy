/**
 * A table of the SQLite record store: its five prepared statements, each
 * made on first use and reused afterwards with its bindings cleared, the
 * auto-increment key written back into a record after an insert, and the
 * records built from the rows of a query.
 */
module SQLiteTable {
  import opened Wrappers
  import opened JavaInts

  /** A value as held in a record column and stored in a table cell. */
  datatype Value =
    | IntegerValue(i: Int64)
    | RealValue(bits: Int64)
    | TextValue(s: string)
    | BlobValue(bytes: seq<Int8>)

  /** A record: the values of its columns, by column name; an unset column has no entry. */
  class Record {
    var values: map<string, Value>

    constructor ()
      ensures values == map[]
    {
      values := map[];
    }
  }

  datatype StatementKind = ExistsStmt | InsertStmt | UpdateStmt | DeleteStmt | CountStmt

  /** What the table asks of the statements of the backend, in order. */
  datatype StatementCall =
    | Prepare(kind: StatementKind)
    | ClearBindings(kind: StatementKind)
    | BindAll(kind: StatementKind)
    | Execute(kind: StatementKind)
    | Close(kind: StatementKind)

  /** How often `call` occurs in `calls`. */
  function Occurrences(calls: seq<StatementCall>, call: StatementCall): (r: nat)
    ensures r <= |calls|
    ensures r == 0 <==> call !in calls
  {
    if |calls| == 0 then 0
    else Occurrences(calls[..|calls| - 1], call) + (if calls[|calls| - 1] == call then 1 else 0)
  }

  lemma OccurrencesAppend(calls: seq<StatementCall>, extra: StatementCall, call: StatementCall)
    ensures Occurrences(calls + [extra], call) == Occurrences(calls, call) + (if extra == call then 1 else 0)
  {
    assert (calls + [extra])[..|calls|] == calls;
  }

  /** Appending calls that prepare nothing leaves the count of every preparation alone. */
  lemma {:induction false} NoPrepareAppend(calls: seq<StatementCall>, extra: seq<StatementCall>, kind: StatementKind)
    requires forall c :: c in extra ==> !c.Prepare?
    ensures Occurrences(calls + extra, Prepare(kind)) == Occurrences(calls, Prepare(kind))
    decreases |extra|
  {
    if |extra| > 0 {
      var n := |extra| - 1;
      assert calls + extra == (calls + extra[..n]) + [extra[n]];
      OccurrencesAppend(calls + extra[..n], extra[n], Prepare(kind));
      NoPrepareAppend(calls, extra[..n], kind);
    } else {
      assert calls + extra == calls;
    }
  }

  class SQLiteTable {
    /** The five statement fields; `true` once the statement has been assigned. */
    var existsStatement: bool
    var insertStatement: bool
    var updateStatement: bool
    var deleteStatement: bool
    var countStatement: bool
    /** The name of the auto-incrementing key column, if the table has one. */
    const autoIncrementKeyColumn: Option<string>
    var calls: seq<StatementCall>

    function HasStatement(kind: StatementKind): bool
      reads this
    {
      match kind
      case ExistsStmt => existsStatement
      case InsertStmt => insertStatement
      case UpdateStmt => updateStatement
      case DeleteStmt => deleteStatement
      case CountStmt => countStatement
    }

    /** Each statement is prepared at most once, and a statement field is set exactly when it was. */
    ghost predicate Valid()
      reads this
    {
      forall kind: StatementKind ::
        Occurrences(calls, Prepare(kind)) <= 1 &&
        (HasStatement(kind) <==> Occurrences(calls, Prepare(kind)) == 1)
    }

    constructor (autoIncrementKeyColumn: Option<string>)
      ensures Valid() && calls == []
      ensures this.autoIncrementKeyColumn == autoIncrementKeyColumn
      ensures forall kind: StatementKind :: !HasStatement(kind)
    {
      existsStatement, insertStatement, updateStatement := false, false, false;
      deleteStatement, countStatement := false, false;
      this.autoIncrementKeyColumn := autoIncrementKeyColumn;
      calls := [];
    }

    /** Assigns the statement field of `kind`. */
    method SetStatement(kind: StatementKind)
      modifies this
      ensures HasStatement(kind) && calls == old(calls)
      ensures forall k: StatementKind :: k != kind ==> HasStatement(k) == old(HasStatement(k))
    {
      match kind
      case ExistsStmt => existsStatement := true;
      case InsertStmt => insertStatement := true;
      case UpdateStmt => updateStatement := true;
      case DeleteStmt => deleteStatement := true;
      case CountStmt => countStatement := true;
    }

    /** `getStatement` for a statement not made before. */
    method PrepareNew(kind: StatementKind)
      requires Valid() && !HasStatement(kind)
      modifies this
      ensures Valid() && HasStatement(kind)
      ensures forall k: StatementKind :: k != kind ==> HasStatement(k) == old(HasStatement(k))
      ensures calls == old(calls) + [Prepare(kind)]
    {
      SetStatement(kind);
      calls := calls + [Prepare(kind)];
      forall k: StatementKind
        ensures Occurrences(calls, Prepare(k)) <= 1
        ensures HasStatement(k) <==> Occurrences(calls, Prepare(k)) == 1
      {
        OccurrencesAppend(old(calls), Prepare(kind), Prepare(k));
      }
    }

    /** Records calls that prepare nothing. */
    method Log(extra: seq<StatementCall>)
      requires Valid() && forall c :: c in extra ==> !c.Prepare?
      modifies this
      ensures Valid() && calls == old(calls) + extra
      ensures forall k: StatementKind :: HasStatement(k) == old(HasStatement(k))
    {
      calls := calls + extra;
      forall k: StatementKind
        ensures Occurrences(calls, Prepare(k)) == Occurrences(old(calls), Prepare(k))
      {
        NoPrepareAppend(old(calls), extra, k);
      }
    }

    /**
     * The opening of `isRecordInDB`, `insert`, `update` and `delete`: the
     * statement is prepared if the field is still null, else its bindings
     * are cleared for reuse.
     */
    method PrepareOrReuse(kind: StatementKind)
      requires Valid()
      modifies this
      ensures Valid() && HasStatement(kind)
      ensures forall k: StatementKind :: k != kind ==> HasStatement(k) == old(HasStatement(k))
      ensures calls == old(calls) + [if old(HasStatement(kind)) then ClearBindings(kind) else Prepare(kind)]
    {
      if !HasStatement(kind) {
        PrepareNew(kind);
      } else {
        Log([ClearBindings(kind)]);
      }
    }

    /**
     * `isRecordInDB`: with an auto-increment key, whether the record's key is
     * set; otherwise the answer of the exists query (`rowFound`).
     */
    method IsRecordInDB(record: Record, rowFound: bool) returns (r: bool)
      requires Valid()
      modifies this
      ensures Valid()
      ensures autoIncrementKeyColumn.Some? ==>
        r == (autoIncrementKeyColumn.value in record.values) && calls == old(calls) &&
        forall k: StatementKind :: HasStatement(k) == old(HasStatement(k))
      ensures autoIncrementKeyColumn.None? ==>
        r == rowFound && HasStatement(ExistsStmt) &&
        calls == old(calls) + [if old(HasStatement(ExistsStmt)) then ClearBindings(ExistsStmt) else Prepare(ExistsStmt),
                               BindAll(ExistsStmt), Execute(ExistsStmt)]
    {
      if autoIncrementKeyColumn.Some? {
        return autoIncrementKeyColumn.value in record.values;
      }
      PrepareOrReuse(ExistsStmt);
      Log([BindAll(ExistsStmt)]);
      Log([Execute(ExistsStmt)]);
      r := rowFound;
    }

    /**
     * `insert`: bind and execute the insert statement; with an
     * auto-increment key, store the row id the backend returned (`rowID`)
     * in the record.
     */
    method Insert(record: Record, rowID: Int64)
      requires Valid()
      modifies this, record
      ensures Valid() && HasStatement(InsertStmt)
      ensures calls == old(calls) + [if old(HasStatement(InsertStmt)) then ClearBindings(InsertStmt) else Prepare(InsertStmt),
                                     BindAll(InsertStmt), Execute(InsertStmt)]
      ensures record.values == match autoIncrementKeyColumn
        case Some(key) => old(record.values)[key := IntegerValue(rowID)]
        case None => old(record.values)
    {
      PrepareOrReuse(InsertStmt);
      Log([BindAll(InsertStmt)]);
      Log([Execute(InsertStmt)]);
      if autoIncrementKeyColumn.Some? {
        record.values := record.values[autoIncrementKeyColumn.value := IntegerValue(rowID)];
      }
    }

    /** `update`: bind and execute the update statement; the record is unchanged. */
    method Update(record: Record)
      requires Valid()
      modifies this
      ensures Valid() && HasStatement(UpdateStmt)
      ensures calls == old(calls) + [if old(HasStatement(UpdateStmt)) then ClearBindings(UpdateStmt) else Prepare(UpdateStmt),
                                     BindAll(UpdateStmt), Execute(UpdateStmt)]
    {
      PrepareOrReuse(UpdateStmt);
      Log([BindAll(UpdateStmt)]);
      Log([Execute(UpdateStmt)]);
    }

    /** `delete`: bind and execute the delete statement. */
    method Delete(record: Record)
      requires Valid()
      modifies this
      ensures Valid() && HasStatement(DeleteStmt)
      ensures calls == old(calls) + [if old(HasStatement(DeleteStmt)) then ClearBindings(DeleteStmt) else Prepare(DeleteStmt),
                                     BindAll(DeleteStmt), Execute(DeleteStmt)]
    {
      PrepareOrReuse(DeleteStmt);
      Log([BindAll(DeleteStmt)]);
      Log([Execute(DeleteStmt)]);
    }

    /**
     * `getRecordCount`: the count statement has no parameters, so it is
     * prepared once and executed without clearing; the result is the
     * backend's answer `count`.
     */
    method GetRecordCount(count: Int64) returns (r: Int64)
      requires Valid()
      modifies this
      ensures Valid() && HasStatement(CountStmt) && r == count
      ensures calls == old(calls) + (if old(HasStatement(CountStmt)) then [] else [Prepare(CountStmt)]) + [Execute(CountStmt)]
    {
      if !countStatement {
        PrepareNew(CountStmt);
      }
      Log([Execute(CountStmt)]);
      r := count;
    }

    /** The close calls `drop` makes: one for each statement that was made, in field order. */
    function CloseCalls(): (r: seq<StatementCall>)
      reads this
      ensures forall c :: c in r ==> c.Close?
      ensures forall k: StatementKind :: Close(k) in r <==> HasStatement(k)
    {
      (if existsStatement then [Close(ExistsStmt)] else []) +
      (if insertStatement then [Close(InsertStmt)] else []) +
      (if updateStatement then [Close(UpdateStmt)] else []) +
      (if deleteStatement then [Close(DeleteStmt)] else []) +
      (if countStatement then [Close(CountStmt)] else [])
    }

    /** `drop`: release every statement made so far (dropping the table itself is the generic store's). */
    method Drop()
      requires Valid()
      modifies this
      ensures Valid() && calls == old(calls) + old(CloseCalls())
      ensures forall k: StatementKind :: HasStatement(k) == old(HasStatement(k))
    {
      Log(CloseCalls());
    }
  }

  /** Each statement is prepared once, however many inserts follow. */
  method InsertTwicePreparesOnce(table: SQLiteTable, first: Record, second: Record, id1: Int64, id2: Int64)
    requires table.Valid() && table.calls == [] && !table.HasStatement(InsertStmt)
    modifies table, first, second
    ensures table.Valid()
    ensures table.calls == [Prepare(InsertStmt), BindAll(InsertStmt), Execute(InsertStmt),
                            ClearBindings(InsertStmt), BindAll(InsertStmt), Execute(InsertStmt)]
    ensures Occurrences(table.calls, Prepare(InsertStmt)) == 1
  {
    table.Insert(first, id1);
    table.Insert(second, id2);
  }

  /** After an insert into a table with an auto-increment key, the record holds the new row id and counts as stored. */
  method InsertThenIsRecordInDB(table: SQLiteTable, record: Record, rowID: Int64, rowFound: bool) returns (r: bool)
    requires table.Valid() && table.autoIncrementKeyColumn.Some?
    modifies table, record
    ensures r
    ensures table.autoIncrementKeyColumn.value in record.values
    ensures record.values[table.autoIncrementKeyColumn.value] == IntegerValue(rowID)
  {
    table.Insert(record, rowID);
    r := table.IsRecordInDB(record, rowFound);
  }

  // ---------------------------------------------------------------------
  // Record selection
  // ---------------------------------------------------------------------

  /**
   * The values a record takes from one cursor row: column `columns[i]` from
   * cell `i`, a NULL cell leaving the column unset.
   */
  function RowValues(columns: seq<string>, row: seq<Option<Value>>): (r: map<string, Value>)
    requires |row| == |columns|
    ensures r.Keys <= set i | 0 <= i < |columns| :: columns[i]
    decreases |columns|
  {
    if |columns| == 0 then map[]
    else
      var n := |columns| - 1;
      var prefix := RowValues(columns[..n], row[..n]);
      if row[n].Some? then prefix[columns[n] := row[n].value] else prefix - {columns[n]}
  }

  predicate Distinct(columns: seq<string>)
  {
    forall i, j :: 0 <= i < j < |columns| ==> columns[i] != columns[j]
  }

  /** With distinct column names, each column holds exactly its own cell, and a NULL cell leaves its column unset. */
  lemma {:induction false} RowValuesAt(columns: seq<string>, row: seq<Option<Value>>, i: nat)
    requires |row| == |columns| && Distinct(columns) && i < |columns|
    ensures columns[i] in RowValues(columns, row) <==> row[i].Some?
    ensures row[i].Some? ==> RowValues(columns, row)[columns[i]] == row[i].value
    decreases |columns|
  {
    var n := |columns| - 1;
    if i < n {
      RowValuesAt(columns[..n], row[..n], i);
    }
  }

  /**
   * `sqliteCol.store(record, cursor, i++)` over the table's columns in
   * registration order, on a freshly created record.
   */
  method StoreRow(columns: seq<string>, row: seq<Option<Value>>) returns (record: Record)
    requires |row| == |columns|
    ensures fresh(record)
    ensures record.values == RowValues(columns, row)
  {
    record := new Record();
    var i := 0;
    while i < |columns|
      invariant 0 <= i <= |columns|
      invariant record.values == RowValues(columns[..i], row[..i])
    {
      if row[i].Some? {
        record.values := record.values[columns[i] := row[i].value];
      } else {
        record.values := record.values - {columns[i]};
      }
      assert columns[..i + 1][..i] == columns[..i];
      assert row[..i + 1][..i] == row[..i];
      i := i + 1;
    }
    assert columns[..i] == columns && row[..i] == row;
  }

  /**
   * `executeRecordSelection`: one new record per cursor row, in row order,
   * each filled from its row; no rows give the empty list.
   */
  method ExecuteRecordSelection(columns: seq<string>, rows: seq<seq<Option<Value>>>) returns (result: seq<Record>)
    requires forall k :: 0 <= k < |rows| ==> |rows[k]| == |columns|
    ensures |result| == |rows|
    ensures forall k :: 0 <= k < |rows| ==> fresh(result[k]) && result[k].values == RowValues(columns, rows[k])
    ensures forall k, l :: 0 <= k < l < |result| ==> result[k] != result[l]
  {
    if |rows| == 0 {
      return [];
    }
    result := [];
    var k := 0;
    while k < |rows|
      invariant 0 <= k <= |rows| && |result| == k
      invariant forall j :: 0 <= j < k ==> fresh(result[j]) && result[j].values == RowValues(columns, rows[j])
      invariant forall j, l :: 0 <= j < l < k ==> result[j] != result[l]
    {
      var record := StoreRow(columns, rows[k]);
      result := result + [record];
      k := k + 1;
    }
  }
}
