/**
 * How the SQLite record store turns a schema into a table definition: each
 * column's inline constraint (a single-column primary key or unique index,
 * and NOT NULL unless the column or an enclosing composite column is
 * optional), the table-level constraints for the indexes left over, and
 * the SQLite column class chosen for each kind of column.
 *
 * Constraints are token lists; the spacing the string builder puts
 * between them is not modelled.
 */
module SQLiteTableFactory {
  import opened Wrappers

  const PRIMARY_KEY: string := "PRIMARY KEY"
  const AUTOINCREMENT: string := "AUTOINCREMENT"
  const UNIQUE: string := "UNIQUE"
  const NOT_NULL: string := "NOT NULL"

  datatype ColumnKind =
    | BooleanKind | TimeStampKind | ByteArrayKind | StringKind | IntegerKind | FloatKind | ListKind

  /** A schema column as the factory sees it. */
  datatype Column = Column(name: string, optional: bool, kind: ColumnKind)

  /**
   * A schema index over the named columns; `autoIncrement` marks an
   * auto-incrementing primary key. Indexes are compared by value.
   */
  datatype Index = Index(name: string, columns: seq<string>, unique: bool, autoIncrement: bool)

  /** The SQLite column classes of the store. */
  datatype SQLiteClass = SQLiteBoolean | SQLiteString | SQLiteBlob | SQLiteInteger | SQLiteDouble

  /** The storage classes of SQLite (section 2 of the SQLite datatype documentation). */
  datatype StorageClass = IntegerStorage | RealStorage | TextStorage | BlobStorage

  /** A column added to the table: its SQL name, the schema column it stores, its class and its constraint. */
  datatype SQLiteColumn = SQLiteColumn(name: string, source: string, sqlClass: SQLiteClass, constraint: seq<string>)

  /** A table-level constraint: its keyword and the SQL columns it lists, in order. */
  datatype TableConstraint = TableConstraint(keyword: string, sqlColumnNames: seq<string>)

  // ---------------------------------------------------------------------
  // Specification of the column constraint
  // ---------------------------------------------------------------------

  /** What an index contributes to the definition of a column it covers alone. */
  function InlineTokens(idx: Index, primaryKey: Option<Index>): seq<string>
  {
    if primaryKey == Some(idx) then [PRIMARY_KEY] + (if idx.autoIncrement then [AUTOINCREMENT] else [])
    else if idx.unique then [UNIQUE]
    else []
  }

  /** The index covers `col` on its own and makes it a key: it goes into the column definition. */
  predicate Inlined(col: Column, idx: Index, primaryKey: Option<Index>)
  {
    col.name in idx.columns && !(|idx.columns| > 1) && InlineTokens(idx, primaryKey) != []
  }

  /** The tokens of all the indexes inlined into `col`, in index order. */
  function InlineConstraint(col: Column, indexes: seq<Index>, primaryKey: Option<Index>): (r: seq<string>)
    ensures forall t :: t in r ==> t == PRIMARY_KEY || t == AUTOINCREMENT || t == UNIQUE
    decreases |indexes|
  {
    if |indexes| == 0 then []
    else
      var n := |indexes| - 1;
      InlineConstraint(col, indexes[..n], primaryKey)
        + (if Inlined(col, indexes[n], primaryKey) then InlineTokens(indexes[n], primaryKey) else [])
  }

  /** The indexes still to be processed after `col`: those not inlined, in order. */
  function Pending(col: Column, indexes: seq<Index>, primaryKey: Option<Index>): (r: seq<Index>)
    ensures |r| <= |indexes|
    decreases |indexes|
  {
    if |indexes| == 0 then []
    else
      var n := |indexes| - 1;
      Pending(col, indexes[..n], primaryKey) + (if Inlined(col, indexes[n], primaryKey) then [] else [indexes[n]])
  }

  /** Whether the column or any column enclosing it is optional. */
  predicate OptionalInDB(col: Column, parents: seq<Column>)
  {
    col.optional || exists p :: p in parents && p.optional
  }

  /** `getColumnConstraint`: the inlined key tokens, then NOT NULL for a column that may not be null. */
  function ColumnConstraint(col: Column, indexes: seq<Index>, primaryKey: Option<Index>, parents: seq<Column>): seq<string>
  {
    InlineConstraint(col, indexes, primaryKey) + (if OptionalInDB(col, parents) then [] else [NOT_NULL])
  }

  // ---------------------------------------------------------------------
  // Specification of the table constraints
  // ---------------------------------------------------------------------

  /** The primary key and the unique indexes become table constraints. */
  predicate IsKey(idx: Index, primaryKey: Option<Index>)
  {
    primaryKey == Some(idx) || idx.unique
  }

  /** The SQL columns that represent the schema column `source`, in table order. */
  function SQLColumnsOf(table: seq<SQLiteColumn>, source: string): (r: seq<string>)
    ensures |r| <= |table|
    ensures forall n :: n in r ==> exists c :: c in table && c.source == source && c.name == n
    decreases |table|
  {
    if |table| == 0 then []
    else
      var k := |table| - 1;
      SQLColumnsOf(table[..k], source) + (if table[k].source == source then [table[k].name] else [])
  }

  /** The SQL columns of each of `indexColumns` in turn. */
  function IndexedSQLColumns(table: seq<SQLiteColumn>, indexColumns: seq<string>): seq<string>
    decreases |indexColumns|
  {
    if |indexColumns| == 0 then []
    else
      var k := |indexColumns| - 1;
      IndexedSQLColumns(table, indexColumns[..k]) + SQLColumnsOf(table, indexColumns[k])
  }

  /** The `PRIMARY KEY(...)` or `UNIQUE(...)` constraint of a key index, over its SQL columns in index order. */
  function KeyConstraint(idx: Index, primaryKey: Option<Index>, table: seq<SQLiteColumn>): TableConstraint
    requires IsKey(idx, primaryKey)
  {
    TableConstraint(if primaryKey == Some(idx) then PRIMARY_KEY else UNIQUE, IndexedSQLColumns(table, idx.columns))
  }

  /** `getTableConstraints`: one constraint per key index, in order. */
  function TableConstraints(indexes: seq<Index>, primaryKey: Option<Index>, table: seq<SQLiteColumn>): (r: seq<TableConstraint>)
    ensures |r| <= |indexes|
    ensures forall c :: c in r ==> c.keyword == PRIMARY_KEY || c.keyword == UNIQUE
    decreases |indexes|
  {
    if |indexes| == 0 then []
    else
      var n := |indexes| - 1;
      TableConstraints(indexes[..n], primaryKey, table)
        + (if IsKey(indexes[n], primaryKey) then [KeyConstraint(indexes[n], primaryKey, table)] else [])
  }

  /** The indexes `getTableConstraints` leaves to be created separately. */
  function Unconstrained(indexes: seq<Index>, primaryKey: Option<Index>): (r: seq<Index>)
    ensures |r| <= |indexes|
    decreases |indexes|
  {
    if |indexes| == 0 then []
    else
      var n := |indexes| - 1;
      Unconstrained(indexes[..n], primaryKey) + (if IsKey(indexes[n], primaryKey) then [] else [indexes[n]])
  }

  /** The pending indexes are exactly those not inlined. */
  lemma {:induction false} PendingMembers(col: Column, indexes: seq<Index>, primaryKey: Option<Index>, idx: Index)
    ensures idx in Pending(col, indexes, primaryKey) <==> idx in indexes && !Inlined(col, idx, primaryKey)
    decreases |indexes|
  {
    if |indexes| > 0 {
      var n := |indexes| - 1;
      assert indexes == indexes[..n] + [indexes[n]];
      PendingMembers(col, indexes[..n], primaryKey, idx);
    }
  }

  /** The indexes left by the table constraints are exactly those that are not keys. */
  lemma {:induction false} UnconstrainedMembers(indexes: seq<Index>, primaryKey: Option<Index>, idx: Index)
    ensures idx in Unconstrained(indexes, primaryKey) <==> idx in indexes && !IsKey(idx, primaryKey)
    decreases |indexes|
  {
    if |indexes| > 0 {
      var n := |indexes| - 1;
      assert indexes == indexes[..n] + [indexes[n]];
      UnconstrainedMembers(indexes[..n], primaryKey, idx);
    }
  }

  /** One more index in the column-constraint loop. */
  lemma ColumnStep(col: Column, indexes: seq<Index>, primaryKey: Option<Index>, i: nat)
    requires i < |indexes|
    ensures Pending(col, indexes[..i + 1], primaryKey)
      == Pending(col, indexes[..i], primaryKey) + (if Inlined(col, indexes[i], primaryKey) then [] else [indexes[i]])
    ensures InlineConstraint(col, indexes[..i + 1], primaryKey)
      == InlineConstraint(col, indexes[..i], primaryKey) + (if Inlined(col, indexes[i], primaryKey) then InlineTokens(indexes[i], primaryKey) else [])
  {
    assert indexes[..i + 1][..i] == indexes[..i];
  }

  /** One more index in the table-constraint loop. */
  lemma TableStep(indexes: seq<Index>, primaryKey: Option<Index>, table: seq<SQLiteColumn>, i: nat)
    requires i < |indexes|
    ensures Unconstrained(indexes[..i + 1], primaryKey)
      == Unconstrained(indexes[..i], primaryKey) + (if IsKey(indexes[i], primaryKey) then [] else [indexes[i]])
    ensures TableConstraints(indexes[..i + 1], primaryKey, table)
      == TableConstraints(indexes[..i], primaryKey, table) + (if IsKey(indexes[i], primaryKey) then [KeyConstraint(indexes[i], primaryKey, table)] else [])
  {
    assert indexes[..i + 1][..i] == indexes[..i];
  }

  // ---------------------------------------------------------------------
  // Column classes
  // ---------------------------------------------------------------------

  /** The SQLite column class each `visit` method chooses; list values are serialised into a blob. */
  function ClassFor(kind: ColumnKind): SQLiteClass
  {
    match kind
    case BooleanKind => SQLiteBoolean
    case TimeStampKind => SQLiteString
    case ByteArrayKind => SQLiteBlob
    case StringKind => SQLiteString
    case IntegerKind => SQLiteInteger
    case FloatKind => SQLiteDouble
    case ListKind => SQLiteBlob
  }

  /** The storage class SQLite uses for a column class; booleans are stored as integers 0 and 1. */
  function StorageOf(c: SQLiteClass): StorageClass
  {
    match c
    case SQLiteBoolean => IntegerStorage
    case SQLiteInteger => IntegerStorage
    case SQLiteDouble => RealStorage
    case SQLiteString => TextStorage
    case SQLiteBlob => BlobStorage
  }

  /**
   * Each kind of column lands in the storage class that holds it: booleans
   * and integers as INTEGER, floats as REAL, strings and time stamps as
   * TEXT, byte arrays and lists as BLOB.
   */
  lemma StorageClassOfKinds(kind: ColumnKind)
    ensures StorageOf(ClassFor(kind)) == IntegerStorage <==> kind == BooleanKind || kind == IntegerKind
    ensures StorageOf(ClassFor(kind)) == RealStorage <==> kind == FloatKind
    ensures StorageOf(ClassFor(kind)) == TextStorage <==> kind == StringKind || kind == TimeStampKind
    ensures StorageOf(ClassFor(kind)) == BlobStorage <==> kind == ByteArrayKind || kind == ListKind
  {
  }

  // ---------------------------------------------------------------------
  // The factory
  // ---------------------------------------------------------------------

  /**
   * The state of a table factory while it visits a schema's columns: the
   * indexes not yet turned into constraints, the composite columns
   * enclosing the current one (kept by the generic factory's traversal),
   * and the columns added to the table so far.
   */
  class SQLiteTableFactory {
    var indexesToProcess: seq<Index>
    const primaryKey: Option<Index>
    var parents: seq<Column>
    var tableColumns: seq<SQLiteColumn>

    constructor (indexes: seq<Index>, primaryKey: Option<Index>)
      ensures indexesToProcess == indexes && this.primaryKey == primaryKey
      ensures parents == [] && tableColumns == []
    {
      indexesToProcess := indexes;
      this.primaryKey := primaryKey;
      parents := [];
      tableColumns := [];
    }

    /** `getColumnConstraint`: builds the constraint and removes every index it inlined. */
    method GetColumnConstraint(col: Column) returns (r: seq<string>)
      modifies this
      ensures r == ColumnConstraint(col, old(indexesToProcess), primaryKey, parents)
      ensures indexesToProcess == Pending(col, old(indexesToProcess), primaryKey)
      ensures parents == old(parents) && tableColumns == old(tableColumns)
    {
      var indexes := indexesToProcess;
      var kept: seq<Index> := [];
      var tokens: seq<string> := [];
      var i := 0;
      while i < |indexes|
        invariant 0 <= i <= |indexes|
        invariant parents == old(parents) && tableColumns == old(tableColumns)
        invariant kept == Pending(col, indexes[..i], primaryKey)
        invariant tokens == InlineConstraint(col, indexes[..i], primaryKey)
      {
        var idx := indexes[i];
        ColumnStep(col, indexes, primaryKey, i);
        if col.name in idx.columns && !(|idx.columns| > 1) {
          var own := InlineTokens(idx, primaryKey);
          if own != [] {
            tokens := tokens + own;
          } else {
            kept := kept + [idx];
          }
        } else {
          kept := kept + [idx];
        }
        i := i + 1;
      }
      assert indexes[..i] == indexes;
      indexesToProcess := kept;

      var optional := col.optional;
      if !optional {
        var j := 0;
        while j < |parents|
          invariant 0 <= j <= |parents|
          invariant parents == old(parents) && tableColumns == old(tableColumns)
          invariant forall q :: 0 <= q < j ==> !parents[q].optional
        {
          if parents[j].optional {
            optional := true;
            break;
          }
          j := j + 1;
        }
      }
      if !optional {
        tokens := tokens + [NOT_NULL];
      }
      r := tokens;
    }

    /** The SQL columns of an index's columns, gathered column by column. */
    method ListIndexedColumns(idx: Index) returns (names: seq<string>)
      ensures names == IndexedSQLColumns(tableColumns, idx.columns)
    {
      names := [];
      var i := 0;
      while i < |idx.columns|
        invariant 0 <= i <= |idx.columns|
        invariant names == IndexedSQLColumns(tableColumns, idx.columns[..i])
      {
        var sqlCols := SQLColumnsOf(tableColumns, idx.columns[i]);
        ghost var before := names;
        var j := 0;
        while j < |sqlCols|
          invariant 0 <= j <= |sqlCols|
          invariant names == before + sqlCols[..j]
        {
          names := names + [sqlCols[j]];
          assert sqlCols[..j + 1] == sqlCols[..j] + [sqlCols[j]];
          j := j + 1;
        }
        assert sqlCols[..j] == sqlCols;
        assert idx.columns[..i + 1][..i] == idx.columns[..i];
        i := i + 1;
      }
      assert idx.columns[..i] == idx.columns;
    }

    /** `getTableConstraints`: a constraint for every key index left, which is then done with. */
    method GetTableConstraints() returns (r: seq<TableConstraint>)
      modifies this
      ensures r == TableConstraints(old(indexesToProcess), primaryKey, tableColumns)
      ensures indexesToProcess == Unconstrained(old(indexesToProcess), primaryKey)
      ensures parents == old(parents) && tableColumns == old(tableColumns)
    {
      var indexes := indexesToProcess;
      var kept: seq<Index> := [];
      r := [];
      var i := 0;
      while i < |indexes|
        invariant 0 <= i <= |indexes|
        invariant parents == old(parents) && tableColumns == old(tableColumns)
        invariant kept == Unconstrained(indexes[..i], primaryKey)
        invariant r == TableConstraints(indexes[..i], primaryKey, tableColumns)
      {
        var idx := indexes[i];
        TableStep(indexes, primaryKey, tableColumns, i);
        if primaryKey == Some(idx) || idx.unique {
          var keyword := if primaryKey == Some(idx) then PRIMARY_KEY else UNIQUE;
          var names := ListIndexedColumns(idx);
          r := r + [TableConstraint(keyword, names)];
        } else {
          kept := kept + [idx];
        }
        i := i + 1;
      }
      assert indexes[..i] == indexes;
      indexesToProcess := kept;
    }

    /**
     * The `visit` methods: add a column of the class for the column's kind,
     * with its constraint. `sqlName` is the name the SQL column is given.
     */
    method Visit(col: Column, sqlName: string)
      modifies this
      ensures tableColumns == old(tableColumns)
        + [SQLiteColumn(sqlName, col.name, ClassFor(col.kind), ColumnConstraint(col, old(indexesToProcess), primaryKey, parents))]
      ensures indexesToProcess == Pending(col, old(indexesToProcess), primaryKey)
      ensures parents == old(parents)
    {
      var constraint := GetColumnConstraint(col);
      tableColumns := tableColumns + [SQLiteColumn(sqlName, col.name, ClassFor(col.kind), constraint)];
    }
  }

  // ---------------------------------------------------------------------
  // Properties
  // ---------------------------------------------------------------------

  /** NOT NULL is part of a column's constraint exactly when neither it nor any enclosing column is optional. */
  lemma NotNullIffRequired(col: Column, indexes: seq<Index>, primaryKey: Option<Index>, parents: seq<Column>)
    ensures NOT_NULL in ColumnConstraint(col, indexes, primaryKey, parents)
      <==> !col.optional && forall p :: p in parents ==> !p.optional
  {
    assert NOT_NULL !in InlineConstraint(col, indexes, primaryKey);
  }

  /** Without optional parents or indexes, a column's constraint is NOT NULL or nothing. */
  lemma PlainColumnConstraint(col: Column)
    ensures ColumnConstraint(col, [], None, []) == (if col.optional then [] else [NOT_NULL])
  {
  }

  /** The tokens of each inlined index appear in the column's constraint. */
  lemma {:induction false} InlinedTokensAppear(col: Column, indexes: seq<Index>, primaryKey: Option<Index>, idx: Index)
    requires idx in indexes && Inlined(col, idx, primaryKey)
    ensures forall t :: t in InlineTokens(idx, primaryKey) ==> t in InlineConstraint(col, indexes, primaryKey)
    decreases |indexes|
  {
    var n := |indexes| - 1;
    if indexes[n] != idx {
      assert idx in indexes[..n];
      InlinedTokensAppear(col, indexes[..n], primaryKey, idx);
    }
  }

  /**
   * A primary key on the column alone is declared inline, with
   * AUTOINCREMENT when it auto-increments, and is no longer pending.
   */
  lemma PrimaryKeyColumnIsInlined(col: Column, indexes: seq<Index>, primaryKey: Option<Index>)
    requires primaryKey.Some? && primaryKey.value in indexes && primaryKey.value.columns == [col.name]
    ensures PRIMARY_KEY in InlineConstraint(col, indexes, primaryKey)
    ensures primaryKey.value.autoIncrement ==> AUTOINCREMENT in InlineConstraint(col, indexes, primaryKey)
    ensures primaryKey.value !in Pending(col, indexes, primaryKey)
  {
    InlinedTokensAppear(col, indexes, primaryKey, primaryKey.value);
    PendingMembers(col, indexes, primaryKey, primaryKey.value);
  }

  /** A unique index on the column alone becomes UNIQUE in the column definition and is no longer pending. */
  lemma UniqueColumnIsInlined(col: Column, indexes: seq<Index>, primaryKey: Option<Index>, idx: Index)
    requires idx in indexes && idx.unique && idx.columns == [col.name]
    ensures (if primaryKey == Some(idx) then PRIMARY_KEY else UNIQUE) in InlineConstraint(col, indexes, primaryKey)
    ensures idx !in Pending(col, indexes, primaryKey)
  {
    InlinedTokensAppear(col, indexes, primaryKey, idx);
    PendingMembers(col, indexes, primaryKey, idx);
  }

  /** Multi-column indexes, and indexes that are neither primary key nor unique, stay pending. */
  lemma NonInlinableIndexesStayPending(col: Column, indexes: seq<Index>, primaryKey: Option<Index>, idx: Index)
    requires idx in indexes
    requires |idx.columns| > 1 || col.name !in idx.columns || !IsKey(idx, primaryKey)
    ensures idx in Pending(col, indexes, primaryKey)
  {
    PendingMembers(col, indexes, primaryKey, idx);
  }

  /**
   * After a column's constraint and the table constraints, every index
   * left is a non-unique index other than the primary key, and every key
   * index was turned into a constraint of one kind or the other.
   */
  lemma AllKeysAreDeclared(col: Column, indexes: seq<Index>, primaryKey: Option<Index>, idx: Index)
    requires idx in indexes
    ensures idx in Unconstrained(Pending(col, indexes, primaryKey), primaryKey) <==> !IsKey(idx, primaryKey)
    ensures IsKey(idx, primaryKey) ==> Inlined(col, idx, primaryKey) || idx in Pending(col, indexes, primaryKey)
  {
    PendingMembers(col, indexes, primaryKey, idx);
    UnconstrainedMembers(Pending(col, indexes, primaryKey), primaryKey, idx);
  }

  /** A key index left for the table constraints lists its columns' SQL columns in index order. */
  lemma {:induction false} KeyIndexHasConstraint(indexes: seq<Index>, primaryKey: Option<Index>, table: seq<SQLiteColumn>, idx: Index)
    requires idx in indexes && IsKey(idx, primaryKey)
    ensures KeyConstraint(idx, primaryKey, table) in TableConstraints(indexes, primaryKey, table)
    decreases |indexes|
  {
    var n := |indexes| - 1;
    if indexes[n] != idx {
      assert idx in indexes[..n];
      KeyIndexHasConstraint(indexes[..n], primaryKey, table, idx);
    }
  }

  /** One constraint per key index: the constraints and the indexes left over together account for every index. */
  lemma {:induction false} ConstraintsPartitionIndexes(indexes: seq<Index>, primaryKey: Option<Index>, table: seq<SQLiteColumn>)
    ensures |TableConstraints(indexes, primaryKey, table)| + |Unconstrained(indexes, primaryKey)| == |indexes|
    decreases |indexes|
  {
    if |indexes| > 0 {
      ConstraintsPartitionIndexes(indexes[..|indexes| - 1], primaryKey, table);
    }
  }

  /** A table whose primary key is a single column: the key is declared in that column and no table constraint repeats it. */
  method SingleColumnPrimaryKeyTable(col: Column, pk: Index) returns (definition: SQLiteColumn, constraints: seq<TableConstraint>)
    requires pk.columns == [col.name]
    ensures definition.constraint ==
      [PRIMARY_KEY] + (if pk.autoIncrement then [AUTOINCREMENT] else []) + (if col.optional then [] else [NOT_NULL])
    ensures constraints == []
  {
    var factory := new SQLiteTableFactory([pk], Some(pk));
    assert [pk][..0] == [];
    assert InlineConstraint(col, [pk], Some(pk)) == [PRIMARY_KEY] + (if pk.autoIncrement then [AUTOINCREMENT] else []);
    assert Pending(col, [pk], Some(pk)) == [];
    factory.Visit(col, col.name);
    definition := factory.tableColumns[0];
    constraints := factory.GetTableConstraints();
  }
}
