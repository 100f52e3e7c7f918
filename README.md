# Sapelli storage and bit-stream core in Dafny

This project models the parts of the Sapelli library whose behaviour can be stated exactly, and proves properties about them:

- **Bit output stream** (`BitOutputStream`, `BigIntegerUtils`). Integers of any width, signed or unsigned, become a flat bit sequence. Bits go most significant first, and signed values use two's complement. Every typed write (bit, bit array, byte, byte sub-array, short, int, long) is built on the one-bit write. The stream counts the bits written and refuses writes once closed. Before any bit is emitted, an integer write checks the value against the inclusive `[min, max]` range its width and signedness allow.
  The abstract bit sink is a `seq<bool>`. An MSB-first decoder (`Bits.Decode`) shows that each write appends exactly the encoding of its value.
- **SQLite record store** (`SQLiteRecordStore`). This part covers:
  - identifier sanitising;
  - nested transactions simulated on SQLite's flat ones;
  - per-table lazy caching of prepared statements;
  - writing the auto-increment row id back into the record;
  - building records from cursor rows;
  - generating column and table constraints;
  - the SQLite storage classes the column visitor chooses;
  - backup file naming.

  The backend is an abstract state. It holds an open-transaction count, the list of SQL commands issued, the statement calls made, and the answers the database gives, which are passed in as parameters.
- **Time stamps** (`TimeStamp`). A time stamp is an immutable pair (ms since the epoch, quarter-hour offset from UTC). The model covers Java's truncating division by 900000, equality, ordering by milliseconds alone, `isBefore`/`isAfter`, and the 32-bit `hashCode` with wrap-around.
- **File storage provider** (`FileStorageProvider`). It builds the Sapelli folder paths and the project-specific ones. The file system is an abstract set of existing, directory, readable and creatable paths. A Java `File` normalises its path, and `FileStorage.NewFile` models that.
- **Storage client** (`StorageClient`). This covers model lookup with reserved models first, schema lookup, and table names.

Java's fixed-width integers are subset types of `int` (`JavaInts.Int8`…`Int64`), and 32-bit wrap-around is written out (`JavaInts.WrapInt32`). Exceptions are `Result`/`Outcome` values (`Wrappers`).

## Model

| member | source | states |
|---|---|---|
| BigIntegerUtils.GetMinValue | Library/src/uk/ac/ucl/excites/sapelli/shared/util/BigIntegerUtils.java:39-48 | Fails exactly when the width is negative. Otherwise it is 0, or `-2^(n-1)` for a signed width `n > 0` |
| BigIntegerUtils.GetMaxValue | Library/src/uk/ac/ucl/excites/sapelli/shared/util/BigIntegerUtils.java:55-66 | Fails exactly when the width is negative. Otherwise it is 0 for width 0, `2^(n-1)-1` if signed and `2^n-1` if unsigned |
| BigIntegerUtils.NumberOfPossibleValues | Library/src/uk/ac/ucl/excites/sapelli/shared/util/BigIntegerUtils.java:72-77 | Fails exactly when the width is negative, otherwise is `2^n` |
| BigIntegerUtils.ZeroInRange | Library/src/uk/ac/ucl/excites/sapelli/shared/util/BigIntegerUtils.java:43-44 | For every width `n >= 0`, `min <= 0 <= max` |
| BigIntegerUtils.RangeSize | Library/src/uk/ac/ucl/excites/sapelli/shared/util/BigIntegerUtils.java:39-77 | `max - min + 1` equals the number of possible values, for both signednesses |
| BigIntegerUtils.ZeroWidthHoldsOnlyZero | Library/src/uk/ac/ucl/excites/sapelli/shared/util/BigIntegerUtils.java:43-46 | Zero bits hold only the value 0 |
| BigIntegerUtils.UnsignedRangeIsNonNegative | Library/src/uk/ac/ucl/excites/sapelli/shared/util/BigIntegerUtils.java:39-48 | Every value in an unsigned range is non-negative |
| BigIntegerUtils.RangeGrowsWithWidth | Library/src/uk/ac/ucl/excites/sapelli/shared/util/BigIntegerUtils.java:39-66 | A value that fits in `n` bits fits in `n + 1` bits |
| Bits.Encode | Library/src/uk/ac/ucl/excites/sapelli/shared/io/BitOutputStream.java:257-261 | The encoding of a value in `n` bits has exactly `n` bits |
| Bits.EncodeBitAt | Library/src/uk/ac/ucl/excites/sapelli/shared/io/BitOutputStream.java:257-261 | Bit `j` of the encoding is `testBit(n-1-j)` (MSB first, sign-extended for negative values) |
| Bits.DecodeUnsigned | Library/src/uk/ac/ucl/excites/sapelli/shared/io/BitOutputStream.java:241-261 | The MSB-first unsigned reading of `k` bits lies in `[0, 2^k)` |
| Bits.DecodeSigned | Library/src/uk/ac/ucl/excites/sapelli/shared/io/BitOutputStream.java:241-261 | The two's-complement reading of `k > 0` bits lies in `[-2^(k-1), 2^(k-1))` |
| Bits.Decode | Library/src/uk/ac/ucl/excites/sapelli/shared/io/BitOutputStream.java:241-261 | Every bit sequence decodes to a value in the range `BigIntegerUtils` allows for its width |
| Bits.UnsignedRoundTrip | Library/src/uk/ac/ucl/excites/sapelli/shared/io/BitOutputStream.java:257-261 | Decoding the unsigned encoding of an in-range value gives the value back |
| Bits.SignedRoundTrip | Library/src/uk/ac/ucl/excites/sapelli/shared/io/BitOutputStream.java:257-261 | Decoding the two's-complement encoding of an in-range value gives the value back |
| Bits.RoundTrip | Library/src/uk/ac/ucl/excites/sapelli/shared/io/BitOutputStream.java:241-261 | For any width and signedness, decoding the written bits of an accepted value gives the value |
| Bits.UnsignedInjective | Library/src/uk/ac/ucl/excites/sapelli/shared/io/BitOutputStream.java:257-261 | Two bit sequences of the same length with the same unsigned value are equal |
| Bits.SignedInjective | Library/src/uk/ac/ucl/excites/sapelli/shared/io/BitOutputStream.java:257-261 | Two bit sequences of the same length with the same signed value are equal |
| Bits.DecodeInjective | Library/src/uk/ac/ucl/excites/sapelli/shared/io/BitOutputStream.java:257-261 | Decoding is injective on sequences of one length |
| Bits.EncodeDecode | Library/src/uk/ac/ucl/excites/sapelli/shared/io/BitOutputStream.java:257-261 | Encoding a decoded sequence at its own width gives the sequence back |
| Bits.SignBit | Library/src/uk/ac/ucl/excites/sapelli/shared/io/BitOutputStream.java:257-261 | A two's-complement value is negative exactly when its first bit is set |
| Bits.EncodeByte | Library/src/uk/ac/ucl/excites/sapelli/shared/io/BitOutputStream.java:103-107 | A byte is written as 8 bits |
| Bits.EncodeBytes | Library/src/uk/ac/ucl/excites/sapelli/shared/io/BitOutputStream.java:119-146 | `k` bytes are written as `8k` bits |
| Bits.EncodeBytesAppend | Library/src/uk/ac/ucl/excites/sapelli/shared/io/BitOutputStream.java:144-145 | Writing one more byte appends its 8 bits |
| Bits.DecodeBytes | Library/src/uk/ac/ucl/excites/sapelli/shared/io/BitOutputStream.java:119-146 | Reading bytes back consumes 8 bits per byte |
| Bits.BytesRoundTrip | Library/src/uk/ac/ucl/excites/sapelli/shared/io/BitOutputStream.java:119-146 | Reading back the bits of a byte sequence gives the bytes |
| BitOutputStream.IntegerWriteCheck | Library/src/uk/ac/ucl/excites/sapelli/shared/io/BitOutputStream.java:245-256 | Accepts exactly the values within `[GetMinValue, GetMaxValue]`. Each error is tied to its condition, checked in source order: negative width exactly when `n < 0`; negative-unsigned exactly for a negative value written unsigned; out-of-range exactly for any other value outside the range |
| BitOutputStream.ZeroBitsAcceptOnlyZero | Library/src/uk/ac/ucl/excites/sapelli/shared/io/BitOutputStream.java:190 | With zero bits only the value 0 is accepted |
| BitOutputStream.MinusOneIsNeverUnsigned | Library/src/uk/ac/ucl/excites/sapelli/shared/io/BitOutputStream.java:249-250 | -1 is refused as unsigned at every width |
| BitOutputStream.TypedValuesFit | Library/src/uk/ac/ucl/excites/sapelli/shared/io/BitOutputStream.java:154-181 | Every Java short, int and long passes the check at 16, 32 and 64 signed bits |
| BitOutputStream.SubArrayCheck | Library/src/uk/ac/ucl/excites/sapelli/shared/io/BitOutputStream.java:138-143 | A sub-array write is accepted exactly when `off >= 0`, `len >= 0` and `off + len <= length` (exact arithmetic) |
| BitOutputStream.SubArrayCheckAsWritten | Library/src/uk/ac/ucl/excites/sapelli/shared/io/BitOutputStream.java:138-143 | The Java check, with `off + len` wrapped to 32 bits. It agrees with the exact check whenever the sum does not overflow |
| BitOutputStream.EmittedAsWritten | Library/src/uk/ac/ucl/excites/sapelli/shared/io/BitOutputStream.java:144-145 | What the Java loop emits (up to the first index past the array). It is the encoding of `bytes[off..off+len)` when that slice exists |
| BitOutputStream.SubArrayOverflowWritesPartially | Library/src/uk/ac/ucl/excites/sapelli/shared/io/BitOutputStream.java:136-146 | Counterexample: off=5, len=0x7FFFFFFF on a 10-byte array passes the Java check and emits 40 bits before failing. The exact check refuses it |
| BitOutputStream.BitOutputStream.constructor | Library/src/uk/ac/ucl/excites/sapelli/shared/io/BitOutputStream.java:49-53 | A new stream is open, empty and has counted 0 bits |
| BitOutputStream.BitOutputStream.WriteBit | Library/src/uk/ac/ucl/excites/sapelli/shared/io/BitOutputStream.java:61-67 | On a closed stream: fails, writes nothing and keeps the count. Otherwise: appends the bit and adds 1 to the count |
| BitOutputStream.BitOutputStream.WriteBits | Library/src/uk/ac/ucl/excites/sapelli/shared/io/BitOutputStream.java:77-81 | Appends the whole array in order. It fails without writing on a closed stream, unless the array is empty |
| BitOutputStream.BitOutputStream.WriteByte | Library/src/uk/ac/ucl/excites/sapelli/shared/io/BitOutputStream.java:103-107 | Appends the byte's 8 bits MSB first, or fails on a closed stream with nothing written |
| BitOutputStream.BitOutputStream.WriteByteRange | Library/src/uk/ac/ucl/excites/sapelli/shared/io/BitOutputStream.java:136-146 | Refuses a bad offset or length without writing anything. Otherwise appends the encoding of `bytes[off..off+len)` |
| BitOutputStream.BitOutputStream.WriteSlice | Library/src/uk/ac/ucl/excites/sapelli/shared/io/BitOutputStream.java:144-145 | The byte loop appends the bytes of the slice in order |
| BitOutputStream.BitOutputStream.WriteBytes | Library/src/uk/ac/ucl/excites/sapelli/shared/io/BitOutputStream.java:119-122 | Appends the encoding of every byte of the array in order |
| BitOutputStream.BitOutputStream.WriteBigInteger | Library/src/uk/ac/ucl/excites/sapelli/shared/io/BitOutputStream.java:241-262 | A value out of range fails with nothing written. An accepted one appends exactly `Encode(value, n)` and adds the bits written to the count |
| BitOutputStream.BitOutputStream.WriteLongBits | Library/src/uk/ac/ucl/excites/sapelli/shared/io/BitOutputStream.java:198-202 | Same as the big-integer write for a 64-bit value |
| BitOutputStream.BitOutputStream.WriteShort | Library/src/uk/ac/ucl/excites/sapelli/shared/io/BitOutputStream.java:154-157 | Appends the 16-bit two's-complement encoding |
| BitOutputStream.BitOutputStream.WriteInt | Library/src/uk/ac/ucl/excites/sapelli/shared/io/BitOutputStream.java:167-170 | Appends the 32-bit two's-complement encoding |
| BitOutputStream.BitOutputStream.WriteLong | Library/src/uk/ac/ucl/excites/sapelli/shared/io/BitOutputStream.java:178-181 | Appends the 64-bit two's-complement encoding |
| BitOutputStream.BitOutputStream.Close | Library/src/uk/ac/ucl/excites/sapelli/shared/io/BitOutputStream.java:335-338 | The stream is closed, so a second close keeps it closed. Bits and count are unchanged |
| BitOutputStream.BitOutputStream.GetNumberOfBitsWritten | Library/src/uk/ac/ucl/excites/sapelli/shared/io/BitOutputStream.java:340-343 | The count equals the number of bits in the sink |
| BitOutputStream.CloseThenWrite | Library/src/uk/ac/ucl/excites/sapelli/shared/io/BitOutputStream.java:61-65 | After close, a write fails and the sink is unchanged |
| BitOutputStream.WriteThenDecode | Library/src/uk/ac/ucl/excites/sapelli/shared/io/BitOutputStream.java:241-262 | A successful write appends exactly `n` bits, adds `n` to the count, and those bits decode to the value. A failed write leaves the sink unchanged |
| SQLiteIdentifiers.PatternIsPlainIdentifier | Library/src/uk/ac/ucl/excites/sapelli/storage/db/sql/sqlite/SQLiteRecordStore.java:77 | The regex `[a-zA-Z_]+[0-9a-zA-Z_]*` matches exactly the non-empty strings of word characters that do not start with a digit |
| SQLiteIdentifiers.SanitiseIdentifier | Library/src/uk/ac/ucl/excites/sapelli/storage/db/sql/sqlite/SQLiteRecordStore.java:167-173 | Unchanged iff the identifier matches the pattern, otherwise `[` + identifier + `]` |
| SQLiteIdentifiers.SanitiseIsInjective | Library/src/uk/ac/ucl/excites/sapelli/storage/db/sql/sqlite/SQLiteRecordStore.java:167-173 | Different identifiers never sanitise to the same name |
| SQLiteIdentifiers.SanitisedIsPlainOrBracketed | Library/src/uk/ac/ucl/excites/sapelli/storage/db/sql/sqlite/SQLiteRecordStore.java:167-173 | The result is a pattern-matching identifier or a bracketed one |
| SQLiteIdentifiers.ValidIdentifierTestVectors | Library/src/uk/ac/ucl/excites/sapelli/storage/db/sql/sqlite/SQLiteRecordStore.java:84-86 | "mytable", "my_field", "xyz123", "_table14343", "_1col" and "a" match |
| SQLiteIdentifiers.InvalidIdentifierTestVectors | Library/src/uk/ac/ucl/excites/sapelli/storage/db/sql/sqlite/SQLiteRecordStore.java:84-86 | "my table", "my-field", "my.table", "123xyz", "_abc?col" and "2" do not match, and "my table" is bracketed |
| SQLiteIdentifiers.PlainIdentifierMatches | Library/src/uk/ac/ucl/excites/sapelli/storage/db/sql/sqlite/SQLiteRecordStore.java:77 | A plain identifier matches the pattern |
| SQLiteIdentifiers.BadCharacterRefuses | Library/src/uk/ac/ucl/excites/sapelli/storage/db/sql/sqlite/SQLiteRecordStore.java:77 | Any character other than a letter, digit or underscore makes the pattern fail |
| SQLiteIdentifiers.LastDot | Library/src/uk/ac/ucl/excites/sapelli/storage/db/sql/sqlite/SQLiteRecordStore.java:211-212 | The position of the last dot, or -1 when the name has none |
| SQLiteIdentifiers.BackupFileName | Library/src/uk/ac/ucl/excites/sapelli/storage/db/sql/sqlite/SQLiteRecordStore.java:211-212 | The backup name is longer than the trimmed name followed by `_Backup` |
| SQLiteIdentifiers.BackupKeepsExtension | Library/src/uk/ac/ucl/excites/sapelli/storage/db/sql/sqlite/SQLiteRecordStore.java:211-212 | The backup file keeps the database file's extension (`sqlite3` when it has none). Its name without the extension is the database's, followed by `_Backup_` and the time stamp |
| SQLiteIdentifiers.DoBackupAsWritten | Library/src/uk/ac/ucl/excites/sapelli/storage/db/sql/sqlite/SQLiteRecordStore.java:208-226 | As written, a missing database file fails with a null-pointer error before the null check |
| SQLiteIdentifiers.DoBackup | Library/src/uk/ac/ucl/excites/sapelli/storage/db/sql/sqlite/SQLiteRecordStore.java:208-226 | Succeeds exactly when the file exists, the folder is writable and the copy works. The result is the backup name. A missing file is "backup not possible", never a null-pointer failure |
| SQLiteIdentifiers.BackupNullCheckIsDead | Library/src/uk/ac/ucl/excites/sapelli/storage/db/sql/sqlite/SQLiteRecordStore.java:210-213 | The two versions agree whenever a file is given. With no file, only the corrected one reaches the intended error |
| SQLiteTransactions.SQLiteRecordStore.DoStartTransaction | Library/src/uk/ac/ucl/excites/sapelli/storage/db/sql/sqlite/SQLiteRecordStore.java:120-131 | Executes BEGIN only outside a transaction, and a failing execute is "could not open". The count is unchanged |
| SQLiteTransactions.SQLiteRecordStore.DoCommitTransaction | Library/src/uk/ac/ucl/excites/sapelli/storage/db/sql/sqlite/SQLiteRecordStore.java:134-145 | Executes COMMIT only at count 1, and a failing execute is "could not commit" |
| SQLiteTransactions.SQLiteRecordStore.DoRollbackTransaction | Library/src/uk/ac/ucl/excites/sapelli/storage/db/sql/sqlite/SQLiteRecordStore.java:148-159 | Executes ROLLBACK only at count 1, and a failing execute is "could not roll back" |
| SQLiteTransactions.NestedRequestsIssueFlatScript | Library/src/uk/ac/ucl/excites/sapelli/storage/db/sql/sqlite/SQLiteRecordStore.java:110-159 | Any nesting of start/commit/roll-back requests sends SQLite a flat BEGIN…COMMIT/ROLLBACK script. The script leaves a transaction open exactly when the count is positive |
| SQLiteTransactions.BalancedNestingIssuesOnePair | Library/src/uk/ac/ucl/excites/sapelli/storage/db/sql/sqlite/SQLiteRecordStore.java:110-145 | `k >= 1` nested starts then `k` commits send exactly BEGIN, COMMIT |
| SQLiteTransactions.RunStarts | Library/src/uk/ac/ucl/excites/sapelli/storage/db/sql/sqlite/SQLiteRecordStore.java:120-131 | Starts from depth `d` send BEGIN only when `d` is 0 |
| SQLiteTransactions.RunCommits | Library/src/uk/ac/ucl/excites/sapelli/storage/db/sql/sqlite/SQLiteRecordStore.java:134-145 | `k` commits from depth `k` send exactly one COMMIT |
| SQLiteTable.Occurrences | Library/src/uk/ac/ucl/excites/sapelli/storage/db/sql/sqlite/SQLiteRecordStore.java:245-249 | Counts how often a call was made. It is zero exactly when the call was never made |
| SQLiteTable.SQLiteTable.constructor | Library/src/uk/ac/ucl/excites/sapelli/storage/db/sql/sqlite/SQLiteRecordStore.java:251-254 | A new table has no prepared statement and no calls |
| SQLiteTable.SQLiteTable.PrepareOrReuse | Library/src/uk/ac/ucl/excites/sapelli/storage/db/sql/sqlite/SQLiteRecordStore.java:266-272 | Prepares the statement if its field is null, otherwise clears its bindings. Each statement is prepared at most once |
| SQLiteTable.SQLiteTable.IsRecordInDB | Library/src/uk/ac/ucl/excites/sapelli/storage/db/sql/sqlite/SQLiteRecordStore.java:260-280 | With an auto-increment key: true iff the key is set, and no statement is used. Otherwise: runs the exists query and answers whether a row was found |
| SQLiteTable.SQLiteTable.Insert | Library/src/uk/ac/ucl/excites/sapelli/storage/db/sql/sqlite/SQLiteRecordStore.java:286-305 | Prepares or reuses, binds and executes the insert. With an auto-increment key, stores the returned row id in the record and leaves the other values alone |
| SQLiteTable.SQLiteTable.Update | Library/src/uk/ac/ucl/excites/sapelli/storage/db/sql/sqlite/SQLiteRecordStore.java:311-326 | Prepares or reuses, binds and executes the update statement |
| SQLiteTable.SQLiteTable.Delete | Library/src/uk/ac/ucl/excites/sapelli/storage/db/sql/sqlite/SQLiteRecordStore.java:338-353 | Prepares or reuses, binds and executes the delete statement |
| SQLiteTable.SQLiteTable.GetRecordCount | Library/src/uk/ac/ucl/excites/sapelli/storage/db/sql/sqlite/SQLiteRecordStore.java:396-401 | Prepares the count statement only the first time, executes it and returns the backend's count |
| SQLiteTable.SQLiteTable.CloseCalls | Library/src/uk/ac/ucl/excites/sapelli/storage/db/sql/sqlite/SQLiteRecordStore.java:404-420 | Closes each statement that was prepared, and only those |
| SQLiteTable.SQLiteTable.Drop | Library/src/uk/ac/ucl/excites/sapelli/storage/db/sql/sqlite/SQLiteRecordStore.java:404-420 | Closes exactly the prepared statements and keeps the statement fields. The table drop of the superclass is not modelled |
| SQLiteTable.InsertTwicePreparesOnce | Library/src/uk/ac/ucl/excites/sapelli/storage/db/sql/sqlite/SQLiteRecordStore.java:288-294 | Two inserts prepare the insert statement once and reuse it the second time |
| SQLiteTable.InsertThenIsRecordInDB | Library/src/uk/ac/ucl/excites/sapelli/storage/db/sql/sqlite/SQLiteRecordStore.java:262-263 | After an insert on an auto-increment table, the key holds the row id and `isRecordInDB` is true |
| SQLiteTable.RowValues | Library/src/uk/ac/ucl/excites/sapelli/storage/db/sql/sqlite/SQLiteRecordStore.java:368-382 | The values stored from a row belong to the registered columns |
| SQLiteTable.RowValuesAt | Library/src/uk/ac/ucl/excites/sapelli/storage/db/sql/sqlite/SQLiteRecordStore.java:376-378 | SQL column `i` is set from cursor column `i` exactly when that value is not null |
| SQLiteTable.StoreRow | Library/src/uk/ac/ucl/excites/sapelli/storage/db/sql/sqlite/SQLiteRecordStore.java:375-379 | Builds a fresh record holding the row's values |
| SQLiteTable.ExecuteRecordSelection | Library/src/uk/ac/ucl/excites/sapelli/storage/db/sql/sqlite/SQLiteRecordStore.java:359-390 | One fresh, distinct record per cursor row, in order, each filled from its row. No rows give an empty list |
| SQLiteTableFactory.InlineConstraint | Library/src/uk/ac/ucl/excites/sapelli/storage/db/sql/sqlite/SQLiteRecordStore.java:573-605 | The inline part holds only PRIMARY KEY, AUTOINCREMENT and UNIQUE |
| SQLiteTableFactory.PendingMembers | Library/src/uk/ac/ucl/excites/sapelli/storage/db/sql/sqlite/SQLiteRecordStore.java:573-605 | An index stays pending exactly when it is not a one-column key index on this column |
| SQLiteTableFactory.SQLColumnsOf | Library/src/uk/ac/ucl/excites/sapelli/storage/db/sql/sqlite/SQLiteRecordStore.java:657-660 | The SQL columns listed for a source column are columns of the table with that source |
| SQLiteTableFactory.TableConstraints | Library/src/uk/ac/ucl/excites/sapelli/storage/db/sql/sqlite/SQLiteRecordStore.java:632-675 | Only PRIMARY KEY and UNIQUE constraints, at most one per index |
| SQLiteTableFactory.UnconstrainedMembers | Library/src/uk/ac/ucl/excites/sapelli/storage/db/sql/sqlite/SQLiteRecordStore.java:637-670 | After table constraints, exactly the non-key indexes stay pending |
| SQLiteTableFactory.SQLiteTableFactory.constructor | Library/src/uk/ac/ucl/excites/sapelli/storage/db/sql/sqlite/SQLiteRecordStore.java:573-574 | The factory starts with the schema's indexes pending, no parents and no columns |
| SQLiteTableFactory.SQLiteTableFactory.GetColumnConstraint | Library/src/uk/ac/ucl/excites/sapelli/storage/db/sql/sqlite/SQLiteRecordStore.java:568-630 | The loop computes the inline tokens then NOT NULL, and removes the inlined indexes from the pending list |
| SQLiteTableFactory.SQLiteTableFactory.ListIndexedColumns | Library/src/uk/ac/ucl/excites/sapelli/storage/db/sql/sqlite/SQLiteRecordStore.java:655-662 | The nested loop lists the SQL columns of each index column in order |
| SQLiteTableFactory.SQLiteTableFactory.GetTableConstraints | Library/src/uk/ac/ucl/excites/sapelli/storage/db/sql/sqlite/SQLiteRecordStore.java:632-675 | One constraint per remaining key index. Those indexes leave the pending list and the others stay |
| SQLiteTableFactory.SQLiteTableFactory.Visit | Library/src/uk/ac/ucl/excites/sapelli/storage/db/sql/sqlite/SQLiteRecordStore.java:682-730 | Adds one column of the SQLite class for the column's kind, with the column constraint |
| SQLiteTableFactory.StorageClassOfKinds | Library/src/uk/ac/ucl/excites/sapelli/storage/db/sql/sqlite/SQLiteRecordStore.java:682-798 | Booleans and integers are INTEGER, floats REAL, strings and time stamps TEXT, byte arrays and lists BLOB |
| SQLiteTableFactory.NotNullIffRequired | Library/src/uk/ac/ucl/excites/sapelli/storage/db/sql/sqlite/SQLiteRecordStore.java:608-618 | NOT NULL is added iff neither the column nor any parent is optional |
| SQLiteTableFactory.PlainColumnConstraint | Library/src/uk/ac/ucl/excites/sapelli/storage/db/sql/sqlite/SQLiteRecordStore.java:568-630 | Without indexes or parents the constraint is only NOT NULL, or nothing for an optional column |
| SQLiteTableFactory.InlinedTokensAppear | Library/src/uk/ac/ucl/excites/sapelli/storage/db/sql/sqlite/SQLiteRecordStore.java:573-605 | Every token of an inlined index appears in the column constraint |
| SQLiteTableFactory.PrimaryKeyColumnIsInlined | Library/src/uk/ac/ucl/excites/sapelli/storage/db/sql/sqlite/SQLiteRecordStore.java:577-600 | A one-column primary key gives PRIMARY KEY (and AUTOINCREMENT) inline and leaves the pending list |
| SQLiteTableFactory.UniqueColumnIsInlined | Library/src/uk/ac/ucl/excites/sapelli/storage/db/sql/sqlite/SQLiteRecordStore.java:589-600 | A one-column unique index gives UNIQUE (PRIMARY KEY if it is the key) inline and leaves the pending list |
| SQLiteTableFactory.NonInlinableIndexesStayPending | Library/src/uk/ac/ucl/excites/sapelli/storage/db/sql/sqlite/SQLiteRecordStore.java:573-605 | Multi-column indexes, indexes of other columns and non-key indexes stay pending |
| SQLiteTableFactory.AllKeysAreDeclared | Library/src/uk/ac/ucl/excites/sapelli/storage/db/sql/sqlite/SQLiteRecordStore.java:568-675 | Every key index is declared inline or at table level. Only non-key indexes are left at the end |
| SQLiteTableFactory.KeyIndexHasConstraint | Library/src/uk/ac/ucl/excites/sapelli/storage/db/sql/sqlite/SQLiteRecordStore.java:637-670 | Each remaining key index gets its table constraint |
| SQLiteTableFactory.ConstraintsPartitionIndexes | Library/src/uk/ac/ucl/excites/sapelli/storage/db/sql/sqlite/SQLiteRecordStore.java:637-670 | Each pending index either becomes a constraint or stays pending, so the two counts add up to the count of pending indexes |
| SQLiteTableFactory.SingleColumnPrimaryKeyTable | Library/src/uk/ac/ucl/excites/sapelli/storage/db/sql/sqlite/SQLiteRecordStore.java:568-675 | A one-column primary key is declared inline (PRIMARY KEY, AUTOINCREMENT for an auto-incrementing key, NOT NULL unless optional) and gives no table constraint |
| TimeStamps.QuartersOf | Library/src/uk/ac/ucl/excites/sapelli/storage/types/TimeStamp.java:53-56 | Java int division by 900000, truncating toward zero |
| TimeStamps.TimeZoneOffsetQH | Library/src/uk/ac/ucl/excites/sapelli/storage/types/TimeStamp.java:53-56 | The quarter-hour offset is bounded, has the sign of the millisecond offset, and is exact for whole quarter hours |
| TimeStamps.OffsetMillisFor | Library/src/uk/ac/ucl/excites/sapelli/storage/types/TimeStamp.java:66-69 | Quarter hours times 900000, with 32-bit wrap-around |
| TimeStamps.Create | Library/src/uk/ac/ucl/excites/sapelli/storage/types/TimeStamp.java:103-107 | Stores both fields as given; the getters return them |
| TimeStamps.FromDateTime | Library/src/uk/ac/ucl/excites/sapelli/storage/types/TimeStamp.java:120-124 | Keeps the instant and truncates the zone offset to quarter hours |
| TimeStamps.Copy | Library/src/uk/ac/ucl/excites/sapelli/storage/types/TimeStamp.java:140-145 | The copy has the same fields |
| TimeStamps.CompareTo | Library/src/uk/ac/ucl/excites/sapelli/storage/types/TimeStamp.java:201-212 | Only -1, 0 or 1, following the order of the milliseconds |
| TimeStamps.EqualsIsValueEquality | Library/src/uk/ac/ucl/excites/sapelli/storage/types/TimeStamp.java:179-189 | `equals` holds iff both fields are equal |
| TimeStamps.CopyEquals | Library/src/uk/ac/ucl/excites/sapelli/storage/types/TimeStamp.java:140-145 | A copy is equal, compares 0 and has the same hash |
| TimeStamps.CompareToIsPreorder | Library/src/uk/ac/ucl/excites/sapelli/storage/types/TimeStamp.java:201-212 | `compareTo` is antisymmetric and transitive |
| TimeStamps.EqualsAgreesWithCompareAndHash | Library/src/uk/ac/ucl/excites/sapelli/storage/types/TimeStamp.java:179-212 | Equal time stamps compare 0 and have equal hashes |
| TimeStamps.CompareToIgnoresZone | Library/src/uk/ac/ucl/excites/sapelli/storage/types/TimeStamp.java:179-212 | The same instant in two zones compares 0 but is not `equals` |
| TimeStamps.BeforeAfterDuality | Library/src/uk/ac/ucl/excites/sapelli/storage/types/TimeStamp.java:214-222 | `a.isBefore(b)` iff `b.isAfter(a)` iff `compareTo < 0`. Neither holds iff `compareTo` is 0 |
| TimeStamps.QuarterHourRoundTrip | Library/src/uk/ac/ucl/excites/sapelli/storage/types/TimeStamp.java:53-69 | In the model's millisecond arithmetic, a quarter-hour offset turned into milliseconds and back is unchanged |
| TimeStamps.OffsetTruncatesTowardZero | Library/src/uk/ac/ucl/excites/sapelli/storage/types/TimeStamp.java:53-56 | Rounding an offset to quarter hours moves it toward zero by less than a quarter hour |
| TimeStamps.FromDateTimeKeepsInstant | Library/src/uk/ac/ucl/excites/sapelli/storage/types/TimeStamp.java:120-124 | In the model's millisecond arithmetic, a date-time built from a stamp gives the same stamp back |
| TimeStamps.HashCodeFormula | Library/src/uk/ac/ucl/excites/sapelli/storage/types/TimeStamp.java:192-198 | The hash is `961 + 31·fold(ms) + qh` modulo 2^32 |
| TimeStamps.HashStepsWrap | Library/src/uk/ac/ucl/excites/sapelli/storage/types/TimeStamp.java:192-198 | Wrapping after each step equals wrapping once |
| TimeStamps.HashOfEpoch | Library/src/uk/ac/ucl/excites/sapelli/storage/types/TimeStamp.java:192-198 | The epoch in UTC hashes to 961 |
| TimeStamps.HashCollision | Library/src/uk/ac/ucl/excites/sapelli/storage/types/TimeStamp.java:192-198 | -1 ms and 0 ms differ but hash alike |
| FileStorage.FolderName | Library/src/uk/ac/ucl/excites/sapelli/collector/io/FileStorageProvider.java:35-71 | Each folder's name is one non-empty path segment |
| FileStorage.FolderNamed | Library/src/uk/ac/ucl/excites/sapelli/collector/io/FileStorageProvider.java:35-71 | Reading a folder back by its name (`valueOf`) |
| FileStorage.FolderNameRoundTrip | Library/src/uk/ac/ucl/excites/sapelli/collector/io/FileStorageProvider.java:35-71 | Folder names are distinct and read back to the folder |
| FileStorage.Collapse | Library/src/uk/ac/ucl/excites/sapelli/collector/io/FileStorageProvider.java:184-187 | Collapses runs of separators and keeps the last character |
| FileStorage.NewFile | Library/src/uk/ac/ucl/excites/sapelli/collector/io/FileStorageProvider.java:184-187 | A `File`'s path is normalised: no double separator and no trailing one |
| FileStorage.CollapseKeepsSingleSeparators | Library/src/uk/ac/ucl/excites/sapelli/collector/io/FileStorageProvider.java:184-187 | A path without double separators is unchanged by collapsing |
| FileStorage.NewFileIsIdempotent | Library/src/uk/ac/ucl/excites/sapelli/collector/io/FileStorageProvider.java:184-187 | Normalising twice is normalising once, and a normalised path is unchanged |
| FileStorage.JoinIsNormalised | Library/src/uk/ac/ucl/excites/sapelli/collector/io/FileStorageProvider.java:129-177 | A normalised folder plus a separator and one segment is normalised |
| FileStorage.TrailingSeparatorIsDropped | Library/src/uk/ac/ucl/excites/sapelli/collector/io/FileStorageProvider.java:121-127 | A trailing separator added to a normalised path is dropped again |
| FileStorage.ProjectSubFolderPath | Library/src/uk/ac/ucl/excites/sapelli/collector/io/FileStorageProvider.java:121-127 | `parent/name[ variant]/v<version>/` ends in exactly one separator |
| FileStorage.FolderPathIsChild | Library/src/uk/ac/ucl/excites/sapelli/collector/io/FileStorageProvider.java:129-177 | Each top-level folder is the Sapelli folder, a separator and the folder name |
| FileStorage.FolderPathsAreDistinct | Library/src/uk/ac/ucl/excites/sapelli/collector/io/FileStorageProvider.java:129-177 | Distinct folders have distinct paths |
| FileStorage.ProjectSubFolderFile | Library/src/uk/ac/ucl/excites/sapelli/collector/io/FileStorageProvider.java:121-127 | The project subfolder is `parent/name[ variant]/v<version>` with the trailing separator dropped |
| FileStorage.ProjectFoldersNest | Library/src/uk/ac/ucl/excites/sapelli/collector/io/FileStorageProvider.java:134-182 | The project installation, data and logs folders nest under Projects, Data and Logs |
| FileStorage.FileSystem.constructor | Library/src/uk/ac/ucl/excites/sapelli/collector/io/FileStorageProvider.java:184-195 | A file system holds the given paths |
| FileStorage.FileSystem.CreateFolder | Library/src/uk/ac/ucl/excites/sapelli/collector/io/FileStorageProvider.java:184-195 | Succeeds iff the folder is already a directory or can be made. Only a newly made folder changes the file system: it then exists and is a readable directory. A failure changes nothing |
| FileStorage.FileStorageProvider.constructor | Library/src/uk/ac/ucl/excites/sapelli/collector/io/FileStorageProvider.java:75-82 | The provider keeps the folder it is given |
| FileStorage.FileStorageProvider.GetSapelliFolder | Library/src/uk/ac/ucl/excites/sapelli/collector/io/FileStorageProvider.java:84-90 | Succeeds iff the folder still exists and is readable. Otherwise the error names the folder |
| FileStorage.FileStorageProvider.GetSapelliFolderPath | Library/src/uk/ac/ucl/excites/sapelli/collector/io/FileStorageProvider.java:95-98 | The folder path followed by exactly one separator. It fails when the folder does |
| FileStorage.FileStorageProvider.CreateIfNeeded | Library/src/uk/ac/ucl/excites/sapelli/collector/io/FileStorageProvider.java:184-195 | Without `create`, returns the normalised path without touching the file system. With `create`, succeeds iff the folder can be had, and then it is a directory. A failure names the folder and changes nothing. Every set of the file system is stated |
| FileStorage.FileStorageProvider.GetFolder | Library/src/uk/ac/ucl/excites/sapelli/collector/io/FileStorageProvider.java:129-177 | The folder path under the Sapelli folder, made if asked for. An inaccessible Sapelli folder fails first and touches nothing. With `create`, succeeds iff the folder can be had. Every set of the file system is stated |
| FileStorage.FileStorageProvider.GetProjectSpecificSubFolder | Library/src/uk/ac/ucl/excites/sapelli/collector/io/FileStorageProvider.java:107-127 | The project subfolder of `parent`, made if asked for, with the same success, failure and file-system rules as `createIfNeeded` |
| FileStorage.FileStorageProvider.GetProjectFolder | Library/src/uk/ac/ucl/excites/sapelli/collector/io/FileStorageProvider.java:134-182 | The project's subfolder of Projects, Data or Logs, made if asked for. If the parent folder cannot be had, that is the error and nothing changes. Otherwise the parent is a directory and only the subfolder's creation can fail. Exactly those two folders are added |
| FileStorage.NewFileStorageProvider | Library/src/uk/ac/ucl/excites/sapelli/collector/io/FileStorageProvider.java:75-82 | A null folder is refused, and so is a folder that is not an existing directory. Otherwise the provider holds the normalised path |
| StorageClients.BaseReservedModels | Library/src/uk/ac/ucl/excites/sapelli/storage/StorageClient.java:104-107 | The base client reserves no models |
| StorageClients.FirstWithID | Library/src/uk/ac/ucl/excites/sapelli/storage/StorageClient.java:59-62 | The index of the first model with the ID, or none when no model has it |
| StorageClients.ClientModel | Library/src/uk/ac/ucl/excites/sapelli/storage/StorageClient.java:134 | The client's own models: found, or an unknown-model failure |
| StorageClients.GetModel | Library/src/uk/ac/ucl/excites/sapelli/storage/StorageClient.java:57-65 | The loop returns the first reserved model with the ID, and only otherwise asks the client |
| StorageClients.FirstWithIDIsFirst | Library/src/uk/ac/ucl/excites/sapelli/storage/StorageClient.java:59-62 | The first match is the one the loop stops at |
| StorageClients.ReservedModelsComeFirst | Library/src/uk/ac/ucl/excites/sapelli/storage/StorageClient.java:57-65 | A reserved model with the ID is what is found. Without one, the client model is the answer |
| StorageClients.BaseClientDelegates | Library/src/uk/ac/ucl/excites/sapelli/storage/StorageClient.java:104-107 | In the base client, `getModel` is `getClientModel` |
| StorageClients.SchemaAt | Library/src/uk/ac/ucl/excites/sapelli/storage/StorageClient.java:91 | The model's schema at the number, or an index-out-of-bounds failure |
| StorageClients.GetSchema | Library/src/uk/ac/ucl/excites/sapelli/storage/StorageClient.java:74-97 | An unknown model fails, tagged with the schema number and name. An index failure propagates unchanged |
| StorageClients.UnknownIsOnlyLookupFailure | Library/src/uk/ac/ucl/excites/sapelli/storage/StorageClient.java:89-96 | The model lookup fails only with the unknown-model failure that `getSchema` catches |
| StorageClients.NatToString | Library/src/uk/ac/ucl/excites/sapelli/storage/StorageClient.java:124 | A decimal rendering made of digits only |
| StorageClients.IntToStringRoundTrip | Library/src/uk/ac/ucl/excites/sapelli/storage/StorageClient.java:124 | Java's decimal rendering of a long reads back to the number |
| StorageClients.NatToStringRoundTrip | Library/src/uk/ac/ucl/excites/sapelli/storage/StorageClient.java:124 | Decimal digits read back to the number |
| StorageClients.GetTableName | Library/src/uk/ac/ucl/excites/sapelli/storage/StorageClient.java:117-127 | "Models", "Schemata", the internal name, or `Table_<modelID>_<schemaNumber>` |
| StorageClients.SplitAtUnderscore | Library/src/uk/ac/ucl/excites/sapelli/storage/StorageClient.java:124 | A join at the first underscore splits back into its two parts |
| StorageClients.OrdinaryTableNamesAreDistinct | Library/src/uk/ac/ucl/excites/sapelli/storage/StorageClient.java:123-124 | Two ordinary schemata with the same table name have the same model ID and schema number |
| StorageClients.OrdinaryTableNamesAreNotReserved | Library/src/uk/ac/ucl/excites/sapelli/storage/StorageClient.java:117-124 | An ordinary table name is never "Models" or "Schemata" |
| StorageClients.TableNameExample | Library/src/uk/ac/ucl/excites/sapelli/storage/StorageClient.java:124 | Schema 0 of model 12 is stored in `Table_12_0` |

## Left out

- BitOutputStream.BitOutputStream.WriteBigInteger: the null-value check is not modelled, because a Dafny `int` cannot be null.
- BitOutputStream.BitOutputStream.GetNumberOfBitsWritten: the Java `int` counter is a `nat`, so its overflow after 2^31 - 1 bits is not modelled.
- BitOutputStream.BitOutputStream.WriteBytes: its requires covers only arrays Java can hold (length below 2^31). The whole-array write passes through the corrected sub-array check.
- BitOutputStream.BitOutputStream.WriteByte: `(b & (1 << i)) != 0` for `i` in 0..7 is modelled as two's-complement bit `i` of the byte (`Bits.TestBit`). That is the same bit.
- `write(float)`, `write(double)`, `write(String)`, `write(String, Charset)`, `write(char)` and `write(BitArray)`: these depend on floating-point bit patterns, character sets and the `BitArray` class, none of which is part of this model.
- Padding on close is done by subclasses that are not part of this model. The abstract `writeBit` is the sink sequence.
- SQLiteTable.SQLiteTable.Drop: after closing the statements, `drop` calls the superclass `drop`, which drops the table itself. That superclass is not part of this model, so the model does not state that the table is gone.
- SQLiteTable.SQLiteTable.IsRecordInDB, Insert, Update, Delete, GetRecordCount: the SQL text of the statements, argument binding and the execution itself are not modelled. They are built by helper classes of the unseen `SQLRecordStore` superclass. The database's answers (row found, new row id, count) are parameters.
- SQLiteTransactions.SQLiteRecordStore: the open-transaction counter is kept by the unseen superclass. These methods only read it, and `executeSQL` failing is the parameter `executeFails`.
- SQLiteTable.ExecuteRecordSelection: the cursor is a sequence of rows of nullable values. Closing the cursor and the value conversion of each column type are not modelled.
- SQLiteTableFactory.SQLiteTableFactory.GetColumnConstraint: constraints are lists of tokens; the spacing that `TransactionalStringBuilder` adds is not modelled.
- SQLiteTableFactory.SQLiteTableFactory.Visit: the SQL column name and the parent stack come from the unseen generic table factory. Indexes are compared by value, not by reference.
- List-column blob serialisation (`visitListColumn`'s type mapping) depends on `ListColumn.writeValue`/`readValue`, which are not part of this model. Only the BLOB storage class is modelled.
- `doesTableExist`, `upsert` and the cursor and statement classes call into code that is not part of this model.
- SQLiteIdentifiers.DoBackup: `FileUtils.copyFile` is the parameter `copyFails`, and the time-stamp text is a parameter. Folder writability (`destinationFolder.canWrite()`) is the parameter `canWrite`. The file extension is what follows the last dot of the name.
- TimeStamps: the Joda-time conversions are reduced to an instant and a millisecond zone offset. `toString`, `format`, `now()` (the clock) and the float hour offsets (`getHourOffsetWrtUTC`, `getTimeZoneOffsetH`) are left out. The transient `DateTime` cache is left out as well. Joda's `DateTimeZone.forOffsetMillis` refuses offsets beyond ±23:59:59.999, so in Java the zone round trip exists only for quarter-hour offsets of at most 95 in magnitude; `QuarterHourRoundTrip` and `FromDateTimeKeepsInstant` are proved for the wider bound of 2386 that the 32-bit millisecond arithmetic allows, and the model does not reject offsets between the two.
- FileStorage.NewFile: `File` normalisation is modelled for '/' paths only, as collapsing repeated separators and dropping a trailing one. Relative paths and the working directory are not modelled. The root folder "/" is the one path whose `getSapelliFolderPath` keeps the Java result "//" unstated.
- FileStorage.FileSystem.CreateFolder: `FileHelpers.createFolder` is not part of this model. Creating a folder is modelled by the set of paths that can be made, and the empty path is never a file.
- FileStorage.FileSystem.CreateFolder: creates only the last path component. The parent folders a Java `mkdirs`-style creation would also make (such as `…/name[ variant]/` for a project subfolder) are not added to the file system.
- FileStorage.FileStorageProvider.GetProjectFolder: the new `readable` set is bounded, not given exactly. It lies between the old set and the old set plus the parent and project folders.
- StorageClients.ClientModel: the subclass's `getClientModel` is a map from IDs to models. Subclass overrides of `getReservedModels` and `getTableName` are not modelled.
- StorageClients.SchemaAt: `Model.getSchema` is taken to be a list lookup by schema number. The `Model` class is not part of this model.
- StorageClients.GetSchema: the two-argument `getSchema` is this method with no schema name. The model and meta schemata are recognised by a tag, not by reference identity.

## Findings

| source | as written | input that shows it | evidently intended | confidence | as-written member | corrected member |
|---|---|---|---|---|---|---|
| Library/src/uk/ac/ucl/excites/sapelli/shared/io/BitOutputStream.java:142-145 | `off + len > bytes.length` is computed in 32-bit `int` and can overflow to a negative number | off = 5, len = 0x7FFFFFFF, a 10-byte array: the check passes, 5 bytes (40 bits) are written, then an index error occurs part-way | refuse the write before emitting anything whenever `off + len` exceeds the length | not executed | BitOutputStream.SubArrayOverflowWritesPartially | BitOutputStream.BitOutputStream.WriteByteRange |
| Library/src/uk/ac/ucl/excites/sapelli/storage/db/sql/sqlite/SQLiteRecordStore.java:210-213 | `currentDB.getName()` is called before the `currentDB != null` test | `getDatabaseFile()` returns null: a NullPointerException instead of the "backup not possible" error | test for a missing database file before using its name | not executed | SQLiteIdentifiers.DoBackupAsWritten | SQLiteIdentifiers.DoBackup |
