/**
 * The naming rules of the SQLite record store: when a table or column name
 * may be used bare in SQL and how it is quoted otherwise, and how the file
 * name of a database back-up is made.
 */
module SQLiteIdentifiers {
  import opened Wrappers

  predicate IsLetterOrUnderscore(c: char)
  {
    ('a' <= c <= 'z') || ('A' <= c <= 'Z') || c == '_'
  }

  predicate IsWordChar(c: char)
  {
    IsLetterOrUnderscore(c) || ('0' <= c <= '9')
  }

  /** The first `k` characters are letters or underscores. */
  ghost predicate LeadingRun(s: string, k: nat)
    requires k <= |s|
  {
    forall i :: 0 <= i < k ==> IsLetterOrUnderscore(s[i])
  }

  /** The characters from `k` on are word characters. */
  ghost predicate WordTail(s: string, k: nat)
    requires k <= |s|
  {
    forall i :: k <= i < |s| ==> IsWordChar(s[i])
  }

  /**
   * A whole-string match of the pattern `[a-zA-Z_]+[0-9a-zA-Z_]*`: a
   * non-empty run of letters and underscores, then any word characters.
   */
  ghost predicate MatchesIdentifierPattern(s: string)
  {
    exists k: nat :: 1 <= k <= |s| && LeadingRun(s, k) && WordTail(s, k)
  }

  /** The same language stated directly: a letter or underscore first, word characters throughout. */
  predicate IsPlainIdentifier(s: string)
  {
    |s| > 0 && IsLetterOrUnderscore(s[0]) && forall i :: 0 <= i < |s| ==> IsWordChar(s[i])
  }

  lemma PatternIsPlainIdentifier(s: string)
    ensures MatchesIdentifierPattern(s) <==> IsPlainIdentifier(s)
  {
    if IsPlainIdentifier(s) {
      assert LeadingRun(s, 1) && WordTail(s, 1);
    }
    if MatchesIdentifierPattern(s) {
      var k: nat :| 1 <= k <= |s| && LeadingRun(s, k) && WordTail(s, k);
      assert forall i :: 0 <= i < |s| ==> IsWordChar(s[i]) by {
        forall i | 0 <= i < |s| ensures IsWordChar(s[i]) {
          if i < k {
            assert IsLetterOrUnderscore(s[i]);
          }
        }
      }
    }
  }

  /** `sanitiseIdentifier`: the identifier itself when it matches the pattern, else the identifier in square brackets. */
  function SanitiseIdentifier(identifier: string): (r: string)
    ensures MatchesIdentifierPattern(identifier) ==> r == identifier
    ensures !MatchesIdentifierPattern(identifier) ==> r == "[" + identifier + "]"
  {
    PatternIsPlainIdentifier(identifier);
    if IsPlainIdentifier(identifier) then identifier else "[" + identifier + "]"
  }

  /** Different names stay different after sanitising: a bare name never begins with a bracket. */
  lemma SanitiseIsInjective(a: string, b: string)
    requires SanitiseIdentifier(a) == SanitiseIdentifier(b)
    ensures a == b
  {
    PatternIsPlainIdentifier(a);
    PatternIsPlainIdentifier(b);
    var r := SanitiseIdentifier(a);
    if !IsPlainIdentifier(a) && !IsPlainIdentifier(b) {
      assert a == r[1..|r| - 1] == b;
    }
  }

  /** A sanitised name is a plain identifier or a bracketed one. */
  lemma SanitisedIsPlainOrBracketed(identifier: string)
    ensures var r := SanitiseIdentifier(identifier);
      IsPlainIdentifier(r) || (|r| >= 2 && r[0] == '[' && r[|r| - 1] == ']')
  {
    PatternIsPlainIdentifier(identifier);
  }

  /** The identifiers the store's own test list marks valid. */
  lemma ValidIdentifierTestVectors()
    ensures MatchesIdentifierPattern("mytable") && MatchesIdentifierPattern("my_field")
    ensures MatchesIdentifierPattern("xyz123") && MatchesIdentifierPattern("_table14343")
    ensures MatchesIdentifierPattern("_1col") && MatchesIdentifierPattern("a")
  {
    PlainIdentifierMatches("mytable");
    PlainIdentifierMatches("my_field");
    PlainIdentifierMatches("xyz123");
    PlainIdentifierMatches("_table14343");
    PlainIdentifierMatches("_1col");
    PlainIdentifierMatches("a");
  }

  /** The identifiers the store's own test list marks invalid, which are therefore bracketed. */
  lemma InvalidIdentifierTestVectors()
    ensures !MatchesIdentifierPattern("my table") && !MatchesIdentifierPattern("my-field")
    ensures !MatchesIdentifierPattern("my.table") && !MatchesIdentifierPattern("123xyz")
    ensures !MatchesIdentifierPattern("_abc?col") && !MatchesIdentifierPattern("2")
    ensures SanitiseIdentifier("my table") == "[my table]"
  {
    BadCharacterRefuses("my table", 2);
    BadCharacterRefuses("my-field", 2);
    BadCharacterRefuses("my.table", 2);
    BadCharacterRefuses("_abc?col", 4);
    PatternIsPlainIdentifier("123xyz");
    PatternIsPlainIdentifier("2");
  }

  lemma PlainIdentifierMatches(s: string)
    requires IsPlainIdentifier(s)
    ensures MatchesIdentifierPattern(s)
  {
    PatternIsPlainIdentifier(s);
  }

  lemma BadCharacterRefuses(s: string, i: nat)
    requires i < |s| && !IsWordChar(s[i])
    ensures !MatchesIdentifierPattern(s)
  {
    PatternIsPlainIdentifier(s);
  }

  // ---------------------------------------------------------------------
  // Back-up file names
  // ---------------------------------------------------------------------

  const DATABASE_FILE_EXTENSION: string := "sqlite3"
  const BACKUP_SUFFIX: string := "_Backup"

  /** The position of the last '.' of a file name, or -1 when it has none. */
  function LastDot(name: string): (r: int)
    ensures -1 <= r < |name|
    ensures r >= 0 ==> name[r] == '.' && forall i :: r < i < |name| ==> name[i] != '.'
    ensures r == -1 ==> forall i :: 0 <= i < |name| ==> name[i] != '.'
  {
    if |name| == 0 then -1
    else if name[|name| - 1] == '.' then |name| - 1
    else LastDot(name[..|name| - 1])
  }

  /** The extension: what follows the last '.', empty when there is no dot. */
  function FileExtension(name: string): string
  {
    var d := LastDot(name);
    if d < 0 then "" else name[d + 1..]
  }

  /** The name without its extension and the dot before it. */
  function TrimFileExtensionAndDot(name: string): string
  {
    var d := LastDot(name);
    if d < 0 then name else name[..d]
  }

  /**
   * The file name `doBackup` gives the copy: the base name, `_Backup_`, the
   * time stamp, a dot and the database's extension (or `sqlite3` if it has
   * none).
   */
  function BackupFileName(databaseName: string, timestamp: string): (r: string)
    ensures |r| > |TrimFileExtensionAndDot(databaseName)| + |BACKUP_SUFFIX|
  {
    var ext := FileExtension(databaseName);
    TrimFileExtensionAndDot(databaseName) + BACKUP_SUFFIX + "_" + timestamp + "."
      + (if ext == "" then DATABASE_FILE_EXTENSION else ext)
  }

  lemma {:induction false} LastDotOfJoin(a: string, e: string)
    requires forall i :: 0 <= i < |e| ==> e[i] != '.'
    ensures LastDot(a + "." + e) == |a|
    decreases |e|
  {
    if |e| > 0 {
      var s := a + "." + e;
      assert s[..|s| - 1] == a + "." + e[..|e| - 1];
      LastDotOfJoin(a, e[..|e| - 1]);
    }
  }

  /**
   * A back-up keeps the database's extension (`sqlite3` if it had none),
   * and its base name is the original base name with the suffix and time
   * stamp appended.
   */
  lemma BackupKeepsExtension(databaseName: string, timestamp: string)
    ensures var ext := FileExtension(databaseName);
      FileExtension(BackupFileName(databaseName, timestamp)) == (if ext == "" then DATABASE_FILE_EXTENSION else ext)
    ensures TrimFileExtensionAndDot(BackupFileName(databaseName, timestamp))
         == TrimFileExtensionAndDot(databaseName) + BACKUP_SUFFIX + "_" + timestamp
  {
    var ext := FileExtension(databaseName);
    var e := if ext == "" then DATABASE_FILE_EXTENSION else ext;
    var a := TrimFileExtensionAndDot(databaseName) + BACKUP_SUFFIX + "_" + timestamp;
    assert BackupFileName(databaseName, timestamp) == a + "." + e;
    LastDotOfJoin(a, e);
  }

  /** The database file as `getDatabaseFile` reports it. */
  datatype DatabaseFile = DatabaseFile(name: string, present: bool)

  datatype BackupError =
    | BackupNotPossible          // DBException "Failed to back-up SQLite database"
    | CopyFailed(target: string) // DBException naming the back-up file (Java prefixes the destination folder, which the model does not carry)
    | NullPointer                // NullPointerException, not a DBException

  /**
   * `doBackup` as written: the database file is dereferenced for its name
   * before the null test, so a missing database file fails with a
   * NullPointerException rather than the DBException the test means to
   * raise. The copy's outcome is the parameter `copyFails`.
   */
  function DoBackupAsWritten(currentDB: Option<DatabaseFile>, canWrite: bool, timestamp: string, copyFails: bool): (r: Result<string, BackupError>)
    ensures currentDB.None? ==> r == Failure(NullPointer)
  {
    if currentDB.None? then Failure(NullPointer)
    else
      var backup := BackupFileName(currentDB.value.name, timestamp);
      if currentDB.value.present && canWrite then
        if copyFails then Failure(CopyFailed(backup)) else Success(backup)
      else Failure(BackupNotPossible)
  }

  /**
   * `doBackup` with the null test taking effect: the back-up succeeds, with
   * the back-up name, exactly when there is an existing database file, a
   * writable destination and the copy succeeds.
   */
  function DoBackup(currentDB: Option<DatabaseFile>, canWrite: bool, timestamp: string, copyFails: bool): (r: Result<string, BackupError>)
    ensures r.Success? <==> currentDB.Some? && currentDB.value.present && canWrite && !copyFails
    ensures r.Success? ==> r.value == BackupFileName(currentDB.value.name, timestamp)
    ensures r.Failure? ==> r.error != NullPointer
    ensures !(currentDB.Some? && currentDB.value.present && canWrite) ==> r == Failure(BackupNotPossible)
  {
    if currentDB.Some? && currentDB.value.present && canWrite then
      var backup := BackupFileName(currentDB.value.name, timestamp);
      if copyFails then Failure(CopyFailed(backup)) else Success(backup)
    else Failure(BackupNotPossible)
  }

  /** The two agree whenever there is a database file; without one only the written code throws the wrong exception. */
  lemma BackupNullCheckIsDead(currentDB: Option<DatabaseFile>, canWrite: bool, timestamp: string, copyFails: bool)
    ensures currentDB.Some? ==> DoBackupAsWritten(currentDB, canWrite, timestamp, copyFails) == DoBackup(currentDB, canWrite, timestamp, copyFails)
    ensures DoBackupAsWritten(None, canWrite, timestamp, copyFails) == Failure(NullPointer)
    ensures DoBackup(None, canWrite, timestamp, copyFails) == Failure(BackupNotPossible)
  {
  }
}
